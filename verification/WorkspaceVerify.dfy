/** Comparing a workspace with its provenance table, row by row. */
module WorkspaceVerify {
  import opened Bits
  import opened FileSystem
  import opened Transaction

  datatype Finding = Missing | Unhashed | Unchanged | Modified | Edited

  /** What a row comes to: exactly one finding. */
  function Classify(t: Tree, root: Path, row: Row, hash: seq<byte> -> string): Finding {
    var p := root + row.path;
    if p !in t || !t[p].File? then Missing
    else if row.hash == "" then Unhashed
    else if t[p].content.Plain? && hash(t[p].content.bytes) == row.hash then Unchanged
    else if row.ownership == Generated then Modified else Edited
  }

  /** Rows without a path are passed over. */
  function Checked(rows: seq<Row>): seq<Row> {
    if rows == [] then []
    else Checked(rows[..|rows| - 1]) + (if rows[|rows| - 1].path == [] then [] else [rows[|rows| - 1]])
  }

  /** How many of the rows checked come to `f`. */
  function Tally(t: Tree, root: Path, rows: seq<Row>, hash: seq<byte> -> string, f: Finding): nat {
    if rows == [] then 0
    else
      var n := Tally(t, root, rows[..|rows| - 1], hash, f);
      var row := rows[|rows| - 1];
      if row.path != [] && Classify(t, root, row, hash) == f then n + 1 else n
  }

  /** Counters, and the rows reported as conflicts. */
  datatype Summary = Summary(checked: nat, missing: nat, modified: nat, edited: nat, unhashed: nat, findings: seq<(Path, Finding)>)

  datatype Verified = Verified(summary: Summary) | NoRecord

  /** The rows to report, in table order: files gone, and generated files changed. */
  function Findings(t: Tree, root: Path, rows: seq<Row>, hash: seq<byte> -> string): seq<(Path, Finding)> {
    if rows == [] then []
    else
      var found, row := Findings(t, root, rows[..|rows| - 1], hash), rows[|rows| - 1];
      var f := Classify(t, root, row, hash);
      if row.path != [] && (f == Missing || f == Modified) then found + [(row.path, f)] else found
  }

  lemma {:induction false} FindingsCounted(t: Tree, root: Path, rows: seq<Row>, hash: seq<byte> -> string)
    ensures |Findings(t, root, rows, hash)| == Tally(t, root, rows, hash, Missing) + Tally(t, root, rows, hash, Modified)
    decreases |rows|
  {
    if rows != [] {
      FindingsCounted(t, root, rows[..|rows| - 1], hash);
    }
  }

  /** The workspace.verify handler. */
  method Verify(fs: Files, root: Path, hash: seq<byte> -> string) returns (r: Verified)
    ensures r.NoRecord? <==> !(root + RecordPath in fs.tree && fs.tree[root + RecordPath].File? && fs.tree[root + RecordPath].content.Record?)
    ensures r.Verified? ==> Counts(r.summary, fs.tree, root, fs.tree[root + RecordPath].content.rows, hash)
    ensures r.Verified? ==> var rows := fs.tree[root + RecordPath].content.rows;
      r.summary.missing == |set i: nat | i < |rows| && rows[i].path != [] && (var p := root + rows[i].path; !(p in fs.tree && fs.tree[p].File?))|
    ensures r.Verified? ==> var rows := fs.tree[root + RecordPath].content.rows;
      forall w :: (w, Missing) in r.summary.findings
        <==> w != [] && !(root + w in fs.tree && fs.tree[root + w].File?) && exists i :: 0 <= i < |rows| && rows[i].path == w
  {
    var text := fs.ReadFile(root + RecordPath);
    if text == [] || !text[0].Record? {
      return NoRecord;
    }
    var rows := text[0].rows;
    var s := Summary(0, 0, 0, 0, 0, []);
    for i := 0 to |rows|
      invariant Counts(s, fs.tree, root, rows[..i], hash)
    {
      assert rows[..i + 1][..i] == rows[..i];
      var row := rows[i];
      if row.path == [] {
        continue;
      }
      s := s.(checked := s.checked + 1);
      var content := fs.ReadFile(root + row.path);
      if content == [] {
        s := s.(missing := s.missing + 1, findings := s.findings + [(row.path, Missing)]);
      } else if row.hash == "" {
        s := s.(unhashed := s.unhashed + 1);
      } else if content[0].Plain? && hash(content[0].bytes) == row.hash {
        // Unchanged since it was generated.
      } else if row.ownership == Generated {
        s := s.(modified := s.modified + 1, findings := s.findings + [(row.path, Modified)]);
      } else {
        s := s.(edited := s.edited + 1);
      }
    }
    assert rows[..|rows|] == rows;
    CountersMean(s, fs.tree, root, rows, hash);
    forall w
      ensures (w, Missing) in s.findings
        <==> w != [] && !(root + w in fs.tree && fs.tree[root + w].File?) && exists i :: 0 <= i < |rows| && rows[i].path == w
    {
      FindingsMean(s, fs.tree, root, rows, hash, w);
    }
    r := Verified(s);
  }

  predicate Counts(s: Summary, t: Tree, root: Path, rows: seq<Row>, hash: seq<byte> -> string) {
    && s.checked == |Checked(rows)| && s.missing == Tally(t, root, rows, hash, Missing)
    && s.modified == Tally(t, root, rows, hash, Modified) && s.edited == Tally(t, root, rows, hash, Edited)
    && s.unhashed == Tally(t, root, rows, hash, Unhashed) && s.findings == Findings(t, root, rows, hash)
  }

  // ----- what the counters and the findings mean, row by row

  /** The rows that come to `f`, by place. */
  ghost function Places(t: Tree, root: Path, rows: seq<Row>, hash: seq<byte> -> string, f: Finding): set<nat> {
    set i: nat | i < |rows| && rows[i].path != [] && Classify(t, root, rows[i], hash) == f
  }

  lemma LastPlace(t: Tree, root: Path, rows: seq<Row>, hash: seq<byte> -> string, f: Finding)
    requires rows != []
    ensures var n := |rows| - 1;
      Places(t, root, rows, hash, f) == Places(t, root, rows[..n], hash, f)
        + if rows[n].path != [] && Classify(t, root, rows[n], hash) == f then {n} else {}
  {
    hide Classify;
    var n := |rows| - 1;
    assert forall i: nat :: i < n ==> rows[..n][i] == rows[i];
  }

  lemma {:induction false} TallyIsSize(t: Tree, root: Path, rows: seq<Row>, hash: seq<byte> -> string, f: Finding)
    ensures Tally(t, root, rows, hash, f) == |Places(t, root, rows, hash, f)|
    decreases |rows|
  {
    hide Classify;
    if rows != [] {
      TallyIsSize(t, root, rows[..|rows| - 1], hash, f);
      LastPlace(t, root, rows, hash, f);
    }
  }

  ghost function WithPath(rows: seq<Row>): set<nat> {
    set i: nat | i < |rows| && rows[i].path != []
  }

  lemma {:induction false} CheckedIsSize(rows: seq<Row>)
    ensures |Checked(rows)| == |WithPath(rows)|
    decreases |rows|
  {
    if rows != [] {
      var n := |rows| - 1;
      CheckedIsSize(rows[..n]);
      assert WithPath(rows) == if rows[n].path != [] then WithPath(rows[..n]) + {n} else WithPath(rows[..n]);
    }
  }

  /** Each counter is the number of the rows it stands for. A row is missing where the tree has no file; where it
      has one, the row is without a hash, or modified or edited when the content has another. */
  lemma CountersMean(s: Summary, t: Tree, root: Path, rows: seq<Row>, hash: seq<byte> -> string)
    requires Counts(s, t, root, rows, hash)
    ensures s.checked == |set i: nat | i < |rows| && rows[i].path != []|
    ensures s.missing == |set i: nat | i < |rows| && rows[i].path != [] && (var p := root + rows[i].path; !(p in t && t[p].File?))|
    ensures s.unhashed == |set i: nat | i < |rows| && rows[i].path != [] && (var p := root + rows[i].path; p in t && t[p].File? && rows[i].hash == "")|
    ensures s.modified
         == |set i: nat | i < |rows| && rows[i].path != [] && rows[i].ownership == Generated && (var p := root + rows[i].path;
         p in t && t[p].File? && rows[i].hash != "" && !(t[p].content.Plain? && hash(t[p].content.bytes) == rows[i].hash))|
    ensures s.edited
         == |set i: nat | i < |rows| && rows[i].path != [] && rows[i].ownership != Generated && (var p := root + rows[i].path;
         p in t && t[p].File? && rows[i].hash != "" && !(t[p].content.Plain? && hash(t[p].content.bytes) == rows[i].hash))|
  {
    CheckedIsSize(rows);
    TallyIsSize(t, root, rows, hash, Missing);
    TallyIsSize(t, root, rows, hash, Unhashed);
    TallyIsSize(t, root, rows, hash, Modified);
    TallyIsSize(t, root, rows, hash, Edited);
    assert Places(t, root, rows, hash, Missing) == set i: nat | i < |rows| && rows[i].path != [] && (var p := root + rows[i].path; !(p in t && t[p].File?));
    assert Places(t, root, rows, hash, Unhashed) == set i: nat | i < |rows| && rows[i].path != [] && (var p := root + rows[i].path; p in t && t[p].File? && rows[i].hash == "");
    assert Places(t, root, rows, hash, Modified)
        == set i: nat | i < |rows| && rows[i].path != [] && rows[i].ownership == Generated && (var p := root + rows[i].path;
         p in t && t[p].File? && rows[i].hash != "" && !(t[p].content.Plain? && hash(t[p].content.bytes) == rows[i].hash));
    assert Places(t, root, rows, hash, Edited)
        == set i: nat | i < |rows| && rows[i].path != [] && rows[i].ownership != Generated && (var p := root + rows[i].path;
         p in t && t[p].File? && rows[i].hash != "" && !(t[p].content.Plain? && hash(t[p].content.bytes) == rows[i].hash));
  }

  /** The findings, with the place in the table each comes from: in table order, every row reported once. */
  lemma {:induction false} FindingsInOrder(t: Tree, root: Path, rows: seq<Row>, hash: seq<byte> -> string) returns (at: seq<nat>)
    ensures var found := Findings(t, root, rows, hash);
      && |at| == |found| && (forall j, k :: 0 <= j < k < |at| ==> at[j] < at[k])
      && (forall k :: 0 <= k < |at| ==> at[k] < |rows| && rows[at[k]].path != [] && found[k].0 == rows[at[k]].path)
      && (forall k :: 0 <= k < |at| ==> found[k].1 == Classify(t, root, rows[at[k]], hash) && found[k].1 in {Missing, Modified})
    ensures forall i :: 0 <= i < |rows| && rows[i].path != [] && Classify(t, root, rows[i], hash) in {Missing, Modified} ==> i in at
    decreases |rows|
  {
    hide Classify;
    at := [];
    if rows != [] {
      var n := |rows| - 1;
      at := FindingsInOrder(t, root, rows[..n], hash);
      assert forall i :: 0 <= i < n ==> rows[..n][i] == rows[i];
      var f := Classify(t, root, rows[n], hash);
      if rows[n].path != [] && (f == Missing || f == Modified) {
        var longer := at + [n];
        assert longer[|at|] == n && forall i :: i in at ==> i in longer;
        at := longer;
      }
    }
  }

  /** A path is reported missing exactly when a row checked has that path and the tree no file there, and
      modified exactly when there is a file, the row is of a generated file and has a hash, and the content
      has another. */
  lemma FindingsMean(s: Summary, t: Tree, root: Path, rows: seq<Row>, hash: seq<byte> -> string, w: Path)
    requires Counts(s, t, root, rows, hash)
    ensures (w, Missing) in s.findings
       <==> w != [] && !(root + w in t && t[root + w].File?) && exists i :: 0 <= i < |rows| && rows[i].path == w
    ensures (w, Modified) in s.findings
       <==> w != [] && root + w in t && t[root + w].File?
            && exists i :: 0 <= i < |rows| && rows[i].path == w && rows[i].ownership == Generated && rows[i].hash != ""
                           && !(t[root + w].content.Plain? && hash(t[root + w].content.bytes) == rows[i].hash)
    ensures forall f :: (w, f) in s.findings ==> f == Missing || f == Modified
  {
    var at := FindingsInOrder(t, root, rows, hash);
    forall i | 0 <= i < |rows| && rows[i].path == w && w != [] && Classify(t, root, rows[i], hash) in {Missing, Modified}
      ensures (w, Classify(t, root, rows[i], hash)) in s.findings
    {
      var k :| 0 <= k < |at| && at[k] == i;
      assert s.findings[k] == (w, Classify(t, root, rows[i], hash));
    }
  }

  /** Whatever was edited, every row checked is counted in exactly one place. */
  lemma {:induction false} EveryRowOnce(t: Tree, root: Path, rows: seq<Row>, hash: seq<byte> -> string)
    ensures Tally(t, root, rows, hash, Missing) + Tally(t, root, rows, hash, Unhashed) + Tally(t, root, rows, hash, Unchanged)
          + Tally(t, root, rows, hash, Modified) + Tally(t, root, rows, hash, Edited) == |Checked(rows)|
    decreases |rows|
  {
    if rows != [] {
      EveryRowOnce(t, root, rows[..|rows| - 1], hash);
    }
  }

  // ----- from a clean workspace to one with a file removed or changed

  /** Nothing is reported and nothing counted as edited. */
  predicate Clean(s: Summary) {
    s.findings == [] && s.edited == 0
  }

  /** In a clean workspace every row checked has its file, unchanged or without a hash. */
  lemma CleanRows(s: Summary, t: Tree, root: Path, rows: seq<Row>, hash: seq<byte> -> string)
    requires Counts(s, t, root, rows, hash) && Clean(s)
    ensures forall i :: 0 <= i < |rows| && rows[i].path != [] ==> Classify(t, root, rows[i], hash) in {Unhashed, Unchanged}
  {
    hide Classify;
    FindingsCounted(t, root, rows, hash);
    TallyIsSize(t, root, rows, hash, Missing);
    TallyIsSize(t, root, rows, hash, Modified);
    TallyIsSize(t, root, rows, hash, Edited);
    forall i | 0 <= i < |rows| && rows[i].path != []
      ensures Classify(t, root, rows[i], hash) in {Unhashed, Unchanged}
    {
      assert i !in Places(t, root, rows, hash, Missing) && i !in Places(t, root, rows, hash, Modified);
      assert i !in Places(t, root, rows, hash, Edited);
    }
  }

  /** Nothing but rows with path `w` is reported, and all as `f`. */
  lemma OnlyReported(s: Summary, t: Tree, root: Path, rows: seq<Row>, hash: seq<byte> -> string, w: Path, f: Finding)
    requires Counts(s, t, root, rows, hash)
    requires forall i :: 0 <= i < |rows| && rows[i].path != [] && Classify(t, root, rows[i], hash) in {Missing, Modified} ==>
               rows[i].path == w && Classify(t, root, rows[i], hash) == f
    ensures forall k :: 0 <= k < |s.findings| ==> s.findings[k] == (w, f)
  {
    hide Classify;
    var at := FindingsInOrder(t, root, rows, hash);
  }

  /** One file removed from a clean workspace: each row with its path is missing, and nothing else changes. */
  lemma FileRemoved(s0: Summary, s: Summary, t: Tree, root: Path, rows: seq<Row>, hash: seq<byte> -> string, w: Path)
    requires w != [] && Counts(s0, t, root, rows, hash) && Clean(s0) && Counts(s, t - {root + w}, root, rows, hash)
    ensures s.checked == s0.checked && s.modified == s.edited == 0
    ensures s.missing == |s.findings| == |set i: nat | i < |rows| && rows[i].path == w|
    ensures forall k :: 0 <= k < |s.findings| ==> s.findings[k] == (w, Missing)
    ensures Clean(s) <==> forall i :: 0 <= i < |rows| ==> rows[i].path != w
  {
    var u := t - {root + w};
    CleanRows(s0, t, root, rows, hash);
    forall i | 0 <= i < |rows| && rows[i].path != []
      ensures Classify(u, root, rows[i], hash) == if rows[i].path == w then Missing else Classify(t, root, rows[i], hash)
    {
      SameEnds(root, rows[i].path, w);
    }
    AllCounted(s, u, root, rows, hash);
    assert Places(u, root, rows, hash, Missing) == set i: nat | i < |rows| && rows[i].path == w;
    assert Places(u, root, rows, hash, Modified) == Places(u, root, rows, hash, Edited) == {};
    OnlyReported(s, u, root, rows, hash, w, Missing);
    SomeOrNone(rows, w, set i: nat | i < |rows| && rows[i].path == w);
  }

  lemma SameEnds(root: Path, a: Path, b: Path)
    ensures root + a == root + b <==> a == b
  {
    if root + a == root + b {
      assert a == (root + a)[|root|..] == (root + b)[|root|..] == b;
    }
  }

  lemma AllCounted(s: Summary, t: Tree, root: Path, rows: seq<Row>, hash: seq<byte> -> string)
    requires Counts(s, t, root, rows, hash)
    ensures s.missing == |Places(t, root, rows, hash, Missing)| && s.modified == |Places(t, root, rows, hash, Modified)|
    ensures s.edited == |Places(t, root, rows, hash, Edited)| && s.unhashed == |Places(t, root, rows, hash, Unhashed)|
    ensures |s.findings| == s.missing + s.modified
  {
    hide Classify, Places;
    FindingsCounted(t, root, rows, hash);
    TallyIsSize(t, root, rows, hash, Missing);
    TallyIsSize(t, root, rows, hash, Modified);
    TallyIsSize(t, root, rows, hash, Edited);
    TallyIsSize(t, root, rows, hash, Unhashed);
  }

  lemma SomeOrNone(rows: seq<Row>, w: Path, places: set<nat>)
    requires forall i: nat :: i in places <==> i < |rows| && rows[i].path == w
    ensures |places| == 0 <==> forall i :: 0 <= i < |rows| ==> rows[i].path != w
  {
    if |places| == 0 {
      forall i | 0 <= i < |rows|
        ensures rows[i].path != w
      {
        assert i !in places;
      }
    } else {
      var i :| i in places;
    }
  }

  /** One file of a clean workspace changed: each row with its path and a hash is modified if the file is
      generated, and edited otherwise; nothing else changes. */
  lemma FileChanged(s0: Summary, s: Summary, t: Tree, root: Path, rows: seq<Row>, hash: seq<byte> -> string, w: Path, bytes: seq<byte>)
    requires w != [] && Counts(s0, t, root, rows, hash) && Clean(s0)
    requires root + w in t && t[root + w].File? && Counts(s, t[root + w := File(Plain(bytes))], root, rows, hash)
    requires forall i :: 0 <= i < |rows| && rows[i].path == w ==> rows[i].hash != hash(bytes)
    ensures s.checked == s0.checked && s.missing == 0 && s.unhashed == s0.unhashed
    ensures s.modified == |s.findings|
         == |set i: nat | i < |rows| && rows[i].path == w && rows[i].hash != "" && rows[i].ownership == Generated|
    ensures s.edited == |set i: nat | i < |rows| && rows[i].path == w && rows[i].hash != "" && rows[i].ownership != Generated|
    ensures forall k :: 0 <= k < |s.findings| ==> s.findings[k] == (w, Modified)
  {
    var u := t[root + w := File(Plain(bytes))];
    CleanRows(s0, t, root, rows, hash);
    forall i | 0 <= i < |rows| && rows[i].path != []
      ensures Classify(u, root, rows[i], hash)
        == if rows[i].path != w || rows[i].hash == "" then Classify(t, root, rows[i], hash)
           else if rows[i].ownership == Generated then Modified else Edited
    {
      SameEnds(root, rows[i].path, w);
    }
    AllCounted(s, u, root, rows, hash);
    AllCounted(s0, t, root, rows, hash);
    assert Places(u, root, rows, hash, Missing) == {};
    assert Places(u, root, rows, hash, Unhashed) == Places(t, root, rows, hash, Unhashed);
    assert Places(u, root, rows, hash, Modified)
        == set i: nat | i < |rows| && rows[i].path == w && rows[i].hash != "" && rows[i].ownership == Generated;
    assert Places(u, root, rows, hash, Edited)
        == set i: nat | i < |rows| && rows[i].path == w && rows[i].hash != "" && rows[i].ownership != Generated;
    OnlyReported(s, u, root, rows, hash, w, Modified);
  }

  // ----- after a transaction

  /** Hashes are not empty, as those of SHA-256 never are. */
  ghost predicate RealHash(hash: seq<byte> -> string) {
    forall b :: hash(b) != ""
  }

  // What a transaction leaves is as recorded where no step wrote the record's own path and what was written
  // last to a path has the hash of what was written first: the record takes the place of the one, and the
  // table holds the hash of the other.

  predicate NoRecordWrite(steps: seq<Step>) {
    !Writes(steps, RecordPath)
  }

  predicate SameHash(steps: seq<Step>, p: Path, hash: seq<byte> -> string) {
    p in FirstOf(steps) && p in FilesOf(steps) ==> FilesOf(steps)[p].Plain? && hash(FirstOf(steps)[p]) == hash(FilesOf(steps)[p].bytes)
  }

  predicate SameHashes(steps: seq<Step>, hash: seq<byte> -> string) {
    forall p :: p in FilesOf(steps) ==> SameHash(steps, p, hash)
  }

  predicate AsRecorded(steps: seq<Step>, p: Path, hash: seq<byte> -> string) {
    p != RecordPath && SameHash(steps, p, hash)
  }

  /** The row of a path written is unchanged just when that path is as recorded. */
  lemma RowComes(t: Tree, target: Path, all: seq<Step>, rows: seq<Row>, p: Path, ownership: Ownership, hash: seq<byte> -> string)
    requires Landed(t, target, all, rows) && RealHash(hash) && Writes(all, p)
    ensures p in FirstOf(all)
    ensures var f := Classify(t, target, Row(p, ownership, hash(FirstOf(all)[p])), hash);
      if AsRecorded(all, p, hash) then f == Unchanged else f == if ownership == Generated then Modified else Edited
  {
    WrittenHaveContent(all, p);
    var files := FilesOf(all)[RecordPath := Record(rows)];
    assert target + p in t && t[target + p] == File(files[p]);
  }

  /** After a transaction nothing is missing or without a hash, and rows are changed just when some path is
      not as recorded. */
  lemma {:induction false} RowsCome(t: Tree, target: Path, steps: seq<Step>, all: seq<Step>, rows: seq<Row>, hash: seq<byte> -> string)
    requires Landed(t, target, all, rows) && RealHash(hash) && steps <= all && forall i :: 0 <= i < |all| ==> all[i].path != []
    ensures var r := RowsFor(steps, FirstOf(all), hash);
      && Tally(t, target, r, hash, Missing) == Tally(t, target, r, hash, Unhashed) == 0
      && (Tally(t, target, r, hash, Modified) == Tally(t, target, r, hash, Edited) == 0
          <==> forall i :: 0 <= i < |steps| && steps[i].Write? ==> AsRecorded(all, steps[i].path, hash))
    decreases |steps|
  {
    hide Landed, Classify, AsRecorded, RealHash;
    if steps != [] {
      var n := |steps| - 1;
      var init := RowsFor(steps[..n], FirstOf(all), hash);
      RowsCome(t, target, steps[..n], all, rows, hash);
      assert forall i :: 0 <= i < n ==> steps[..n][i] == steps[i];
      var s := steps[n];
      if s.Write? {
        assert all[n] == s;
        RowComes(t, target, all, rows, s.path, s.ownership, hash);
        var row := Row(s.path, s.ownership, hash(FirstOf(all)[s.path]));
        assert (init + [row])[..|init|] == init;
      }
    }
  }

  lemma AllAsRecorded(steps: seq<Step>, hash: seq<byte> -> string)
    ensures (forall i :: 0 <= i < |steps| && steps[i].Write? ==> AsRecorded(steps, steps[i].path, hash))
        <==> NoRecordWrite(steps) && SameHashes(steps, hash)
  {
    hide SameHash;
    if NoRecordWrite(steps) && SameHashes(steps, hash) {
      forall i | 0 <= i < |steps| && steps[i].Write?
        ensures AsRecorded(steps, steps[i].path, hash)
      {
        WrittenHaveContent(steps, steps[i].path);
      }
    }
    if forall i :: 0 <= i < |steps| && steps[i].Write? ==> AsRecorded(steps, steps[i].path, hash) {
      forall p | p in FilesOf(steps)
        ensures SameHash(steps, p, hash)
      {
        WrittenHaveContent(steps, p);
      }
    }
  }

  /** With distinct paths every path has one content. */
  lemma DistinctKeep(steps: seq<Step>, hash: seq<byte> -> string)
    requires DistinctWrites(steps)
    ensures SameHashes(steps, hash)
  {
    forall p | p in FilesOf(steps)
      ensures SameHash(steps, p, hash)
    {
      WrittenHaveContent(steps, p);
      var i :| 0 <= i < |steps| && steps[i].Write? && steps[i].path == p;
      FirstIs(steps, i);
      LastIs(steps, i);
    }
  }

  /** Right after a transaction nothing is missing, and verifying is clean just when no step wrote the record's
      path and no path was overwritten with something of another hash. */
  lemma FreshIsClean(t: Tree, target: Path, steps: seq<Step>, hash: seq<byte> -> string, s: Summary)
    requires RealHash(hash) && Landed(t, target, steps, RowsOf(steps, hash)) && forall i :: 0 <= i < |steps| ==> steps[i].path != []
    requires Counts(s, t, target, RowsOf(steps, hash), hash)
    ensures s.missing == s.unhashed == 0
    ensures Clean(s) <==> NoRecordWrite(steps) && SameHashes(steps, hash)
    ensures DistinctWrites(steps) ==> (Clean(s) <==> NoRecordWrite(steps))
    ensures Clean(s) ==> s.modified == 0 && Tally(t, target, RowsOf(steps, hash), hash, Unchanged) == s.checked
  {
    hide Landed, RealHash, NoRecordWrite, SameHashes, DistinctWrites, AsRecorded;
    RowsCome(t, target, steps, steps, RowsOf(steps, hash), hash);
    AllAsRecorded(steps, hash);
    EveryRowOnce(t, target, RowsOf(steps, hash), hash);
    FindingsCounted(t, target, RowsOf(steps, hash), hash);
    if DistinctWrites(steps) {
      DistinctKeep(steps, hash);
    }
  }

  /** One entry at the record's own path: it can be staged, and comes out as changed. */
  lemma RecordStepNotClean(t: Tree, target: Path, content: seq<byte>, ownership: Ownership, hash: seq<byte> -> string, s: Summary)
    requires RealHash(hash)
    ensures var steps := [Write(RecordPath, content, ownership)];
      && DistinctWrites(steps) && Fit(steps + [RecordStep])
      && (Landed(t, target, steps, RowsOf(steps, hash)) && Counts(s, t, target, RowsOf(steps, hash), hash) ==> !Clean(s))
  {
    var steps := [Write(RecordPath, content, ownership)];
    assert Writes(steps, RecordPath) by {
      assert steps[0].Write?;
    }
    if Landed(t, target, steps, RowsOf(steps, hash)) && Counts(s, t, target, RowsOf(steps, hash), hash) {
      FreshIsClean(t, target, steps, hash, s);
    }
  }

  /** What verifying returns for such a tree. */
  lemma CleanAfter(t: Tree, target: Path, steps: seq<Step>, hash: seq<byte> -> string, r: Verified)
    requires RealHash(hash) && Landed(t, target, steps, RowsOf(steps, hash)) && forall i :: 0 <= i < |steps| ==> steps[i].path != []
    requires r.NoRecord? <==> !(target + RecordPath in t && t[target + RecordPath].File? && t[target + RecordPath].content.Record?)
    requires r.Verified? ==> Counts(r.summary, t, target, t[target + RecordPath].content.rows, hash)
    ensures r.Verified? && r.summary.missing == r.summary.unhashed == 0
    ensures Clean(r.summary) <==> NoRecordWrite(steps) && SameHashes(steps, hash)
    ensures DistinctWrites(steps) ==> (Clean(r.summary) <==> NoRecordWrite(steps))
  {
    hide Counts, RealHash, NoRecordWrite, SameHashes, DistinctWrites, Clean, RowsOf;
    FreshIsClean(t, target, steps, hash, r.summary);
  }

  /** Applying and verifying in one go: the record is there, nothing is missing, and the workspace is clean
      just when no step wrote the record's path and none changed what was written before. */
  method ApplyThenVerify(fs: Files, target: Path, steps: seq<Step>, hash: seq<byte> -> string) returns (outcome: Outcome, r: Verified)
    requires target != [] && TreeOk(fs.tree) && RealHash(hash) && forall i :: 0 <= i < |steps| ==> steps[i].path != []
    modifies fs
    ensures outcome.Done? ==> r.Verified? && r.summary.missing == r.summary.unhashed == 0
    ensures outcome.Done? ==> (Clean(r.summary) <==> NoRecordWrite(steps) && SameHashes(steps, hash))
    ensures outcome.Done? && DistinctWrites(steps) ==> (Clean(r.summary) <==> NoRecordWrite(steps))
    ensures old(fs.Smooth()) ==> (outcome.Done? <==> CanApply(old(fs.tree), target, steps))
  {
    hide Files.Smooth, CanApply, Counts, RealHash, NoRecordWrite, SameHashes, DistinctWrites, Clean, RowsOf;
    outcome := Apply(fs, target, steps, hash);
    r := Verify(fs, target, hash);
    if outcome.Done? {
      CleanAfter(fs.tree, target, steps, hash, r);
    }
  }
}
