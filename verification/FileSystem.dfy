/** A file tree as a map from paths to nodes, and service calls on it that may fail half way. */
module FileSystem {
  import opened Bits

  /** The names on the way from the root. */
  type Path = seq<string>

  /** A row of the provenance table. */
  datatype Row = Row(path: Path, ownership: Ownership, hash: string)

  datatype Ownership = Generated | Seeded | Shared | User | Metadata

  /** What a file holds: bytes, or a metadata record, kept here as the rows its text stands for. */
  datatype Content = Plain(bytes: seq<byte>) | Record(rows: seq<Row>)

  datatype Node = File(content: Content) | Directory

  type Tree = map<Path, Node>

  /** How a call goes: it works, or it fails after part of its effect, which may be directories made, paths
      not removed or bytes written. */
  datatype Fault = Works | Fails(part: nat, kept: set<Path>, bytes: seq<byte>)

  /** Nothing is at `p` or below it. */
  ghost predicate Absent(t: Tree, p: Path) {
    forall q :: q in t ==> !(p <= q)
  }

  /** The first `n` directories on the way to `p`, and the root. */
  function OnTheWay(p: Path, n: nat): (s: set<Path>)
    requires n <= |p|
    ensures forall r :: r in s <==> r <= p && |r| <= n
  {
    var s := set i: nat | i <= n :: p[..i];
    assert forall r: Path :: r <= p && |r| <= n ==> r == p[..|r|];
    s
  }

  /** `t` with the directories on the way to `p`, as far as the first `n` names, added where nothing is. */
  function WithDirs(t: Tree, p: Path, n: nat): Tree
    requires n <= |p|
  {
    t + map r | r in OnTheWay(p, n) && r !in t :: Directory
  }

  predicate NoFileOnTheWay(t: Tree, p: Path) {
    forall i :: 0 <= i <= |p| ==> (p[..i] in t ==> t[p[..i]].Directory?)
  }

  /** A file can be written at `p`: no file stands on the way, and no directory at the place itself. */
  predicate Writable(t: Tree, p: Path)
    requires p != []
  {
    NoFileOnTheWay(t, p[..|p| - 1]) && (p in t ==> t[p].File?)
  }

  /** `t` without what is at or below `p`, except for `kept`. */
  function Without(t: Tree, p: Path, kept: set<Path>): Tree {
    map q | q in t && (!(p <= q) || q in kept) :: t[q]
  }

  /** Where the things at or below `from` go. */
  function Targets(t: Tree, from: Path, to: Path): (s: set<Path>)
    ensures forall r :: r in s ==> to <= r && from + r[|to|..] in t
  {
    var s := set q | q in t && from <= q :: to + q[|from|..];
    assert forall q :: q in t && from <= q ==> from + (to + q[|from|..])[|to|..] == q;
    s
  }

  /** `t` with what is at or below `from` moved to `to`. */
  function Moved(t: Tree, from: Path, to: Path): Tree {
    Without(t, from, {}) + map r | r in Targets(t, from, to) :: t[from + r[|to|..]]
  }

  class Files {
    var tree: Tree
    /** How many calls were made, and how each of them goes. */
    var calls: nat
    const faults: nat -> Fault
    /** Every state the tree went through. */
    ghost var history: seq<Tree>

    constructor (tree: Tree, faults: nat -> Fault)
      ensures this.tree == tree && this.faults == faults && history == []
      ensures (forall k :: faults(k).Works?) ==> Smooth()
    {
      this.tree, calls, this.faults, history := tree, 0, faults, [];
    }

    /** No call fails from here on. */
    ghost predicate Smooth()
      reads this`calls
    {
      forall k :: k >= calls ==> faults(k).Works?
    }

    method Log()
      modifies this`calls, this`history
      ensures history == old(history) + [tree] && calls == old(calls) + 1
    {
      calls := calls + 1;
      history := history + [tree];
    }

    predicate Exists(p: Path)
      reads this
    {
      p in tree
    }

    /** The content of a file, if there is one. */
    function ReadFile(p: Path): (c: seq<Content>)
      reads this
      ensures |c| <= 1
    {
      if p in tree && tree[p].File? then [tree[p].content] else []
    }

    method CreateDirectories(p: Path) returns (ok: bool)
      modifies this`tree, this`calls, this`history
      ensures history == old(history) + [tree] && (old(Smooth()) ==> Smooth())
      ensures old(Smooth()) ==> (ok <==> NoFileOnTheWay(old(tree), p))
      ensures ok ==> NoFileOnTheWay(old(tree), p) && tree == WithDirs(old(tree), p, |p|)
      ensures !ok ==> tree == old(tree) || exists n: nat :: n <= |p| && tree == WithDirs(old(tree), p, n)
    {
      var f := faults(calls);
      ok := NoFileOnTheWay(tree, p);
      if f.Fails? && ok {
        ok := false;
        var n := if f.part <= |p| then f.part else |p|;
        tree := WithDirs(tree, p, n);
      } else if ok {
        tree := WithDirs(tree, p, |p|);
      }
      Log();
    }

    /** Writes a file after making its directories; a failure may leave a part of it, or nothing. */
    method WriteFile(p: Path, c: Content) returns (ok: bool)
      requires p != []
      modifies this`tree, this`calls, this`history
      ensures |history| >= |old(history)| + 1 && old(history) <= history && history[|history| - 1] == tree
      ensures old(Smooth()) ==> Smooth() && (ok <==> Writable(old(tree), p))
      ensures forall i :: |old(history)| <= i < |history| ==> OnlyAdds(old(tree), history[i], p)
      ensures ok ==> tree == WithDirs(old(tree), p[..|p| - 1], |p| - 1)[p := File(c)] && Writable(old(tree), p)
    {
      hide OnlyAdds, WithDirs, NoFileOnTheWay, Smooth;
      var up := p[..|p| - 1];
      ghost var t0 := tree;
      ok := CreateDirectories(up);
      DirsOnlyAdd(t0, up, p);
      ghost var t1 := tree;
      if ok {
        SameAt(t0, up, p);
        ok := PutFile(p, c);
        FileOnlyAdds(t0, t1, p, tree);
      }
    }

    /** The file itself, once its directories are there. A failure may leave any bytes at its place. */
    method PutFile(p: Path, c: Content) returns (ok: bool)
      modifies this`tree, this`calls, this`history
      ensures history == old(history) + [tree]
      ensures old(Smooth()) ==> Smooth() && (ok <==> (p in old(tree) ==> old(tree)[p].File?))
      ensures tree == old(tree) || exists d :: tree == old(tree)[p := File(d)]
      ensures ok ==> tree == old(tree)[p := File(c)] && (p in old(tree) ==> old(tree)[p].File?)
    {
      var f := faults(calls);
      ok := true;
      if p in tree && tree[p].Directory? {
        ok := false;
      } else if f.Fails? {
        ok := false;
        if f.part > 0 {
          tree := tree[p := File(Plain(f.bytes))];
        }
      } else {
        tree := tree[p := File(c)];
      }
      Log();
    }

    method RemoveAll(p: Path) returns (ok: bool)
      modifies this`tree, this`calls, this`history
      ensures history == old(history) + [tree] && (old(Smooth()) ==> ok && Smooth())
      ensures ok ==> tree == Without(old(tree), p, {})
      ensures !ok ==> exists kept :: tree == Without(old(tree), p, kept)
    {
      var f := faults(calls);
      ok := f.Works?;
      tree := Without(tree, p, if ok then {} else f.kept);
      Log();
    }

    /** All or nothing; the place moved to must be free. */
    method Rename(from: Path, to: Path) returns (ok: bool)
      modifies this`tree, this`calls, this`history
      ensures history == old(history) + [tree] && (old(Smooth()) ==> Smooth() && (ok <==> to !in old(tree)))
      ensures ok ==> to !in old(tree) && tree == Moved(old(tree), from, to)
      ensures !ok ==> tree == old(tree)
    {
      ok := faults(calls).Works? && to !in tree;
      if ok {
        tree := Moved(tree, from, to);
      }
      Log();
    }
  }

  /** `u` differs from `t` only at `p` and by directories on the way to it. */
  ghost predicate OnlyAdds(t: Tree, u: Tree, p: Path) {
    && (forall q :: q in t && q != p ==> q in u && u[q] == t[q])
    && (forall q :: q in u && q !in t ==> q <= p)
  }

  /** Making directories above a place does not touch it. */
  lemma SameAt(t: Tree, up: Path, p: Path)
    requires |up| < |p|
    ensures p in WithDirs(t, up, |up|) <==> p in t
    ensures p in t ==> WithDirs(t, up, |up|)[p] == t[p]
  {
  }

  lemma FileOnlyAdds(t: Tree, u: Tree, p: Path, v: Tree)
    requires OnlyAdds(t, u, p) && (v == u || exists d :: v == u[p := File(d)])
    ensures OnlyAdds(t, v, p)
  {
  }

  lemma DirsOnlyAdd(t: Tree, p: Path, q: Path)
    requires p <= q
    ensures OnlyAdds(t, t, q) && forall n: nat :: n <= |p| ==> OnlyAdds(t, WithDirs(t, p, n), q)
  {
  }
}
