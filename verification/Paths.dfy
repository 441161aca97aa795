/** Relative paths inside a workspace. */
module Paths {
  import opened Strings
  import opened FileSystem

  function Flatten(s: string): string {
    seq(|s|, i requires 0 <= i < |s| => if s[i] == '\\' then '/' else s[i])
  }

  /** The parts that are not empty. */
  function NonEmpty(parts: seq<string>): seq<string> {
    if parts == [] then []
    else (if parts[0] == "" then [] else [parts[0]]) + NonEmpty(parts[1..])
  }

  /** split_path. */
  function SplitPath(s: string): seq<string> {
    NonEmpty(Split(s, '/'))
  }

  /** A path of names that stay inside the workspace. */
  predicate Safe(p: Path) {
    p != [] && forall i :: 0 <= i < |p| ==> p[i] != "" && p[i] != "." && p[i] != ".." && '/' !in p[i] && '\\' !in p[i]
  }

  /** Empty, absolute, on a drive, or going up. */
  predicate Rejected(s: string) {
    s == "" || s[0] == '/' || s[0] == '\\' || (|s| >= 2 && s[1] == ':') || ".." in SplitPath(Flatten(s))
  }

  /** normalize_relative: the parts without dots, always a safe path, or nothing for what is rejected. */
  method NormalizeRelative(s: string) returns (r: Path)
    ensures r == if Rejected(s) then [] else WithoutDots(SplitPath(Flatten(s)))
    ensures r == [] || Safe(r)
  {
    hide SplitPath, WithoutDots, Safe;
    r := [];
    if s == "" || s[0] == '/' || s[0] == '\\' || (|s| >= 2 && s[1] == ':') {
      return;
    }
    var parts := SplitPath(Flatten(s));
    PartsAreNames(Flatten(s));
    NoDots(parts);
    for i := 0 to |parts|
      invariant parts == SplitPath(Flatten(s)) && (r == [] || Safe(r))
      invariant r == WithoutDots(parts[..i]) && ".." !in parts[..i]
    {
      assert parts[..i + 1] == parts[..i] + [parts[i]];
      NextDots(parts, i);
      if parts[i] == "." {
        continue;
      }
      if parts[i] == ".." {
        return [];
      }
      SafeMore(r, parts[i]);
      r := r + [parts[i]];
    }
    assert parts[..|parts|] == parts;
  }

  lemma NoDots(parts: seq<string>)
    ensures WithoutDots(parts[..0]) == []
  {
  }

  lemma NextDots(parts: seq<string>, i: nat)
    requires i < |parts|
    ensures WithoutDots(parts[..i + 1]) == WithoutDots(parts[..i]) + if parts[i] == "." then [] else [parts[i]]
  {
    assert parts[..i + 1][..i] == parts[..i];
  }

  lemma SafeMore(p: Path, name: string)
    requires (p == [] || Safe(p)) && name != "" && name != "." && name != ".." && '/' !in name && '\\' !in name
    ensures Safe(p + [name])
  {
  }

  function WithoutDots(parts: seq<string>): seq<string> {
    if parts == [] then []
    else WithoutDots(parts[..|parts| - 1]) + (if parts[|parts| - 1] == "." then [] else [parts[|parts| - 1]])
  }

  lemma {:induction false} NonEmptyParts(parts: seq<string>, x: string)
    requires x in NonEmpty(parts)
    ensures x in parts && x != ""
    decreases |parts|
  {
    if x != parts[0] || parts[0] == "" {
      NonEmptyParts(parts[1..], x);
    }
  }

  lemma {:induction false} SplitChars(s: string, c: char, d: char)
    requires d !in s
    ensures forall i :: 0 <= i < |Split(s, c)| ==> d !in Split(s, c)[i]
    decreases |s|
  {
    var i := Find(s, c, 0);
    if i < |s| {
      SplitChars(s[i + 1..], c, d);
    }
  }

  lemma PartsAreNames(s: string)
    requires '\\' !in s
    ensures forall i :: 0 <= i < |SplitPath(s)| ==> SplitPath(s)[i] != "" && '/' !in SplitPath(s)[i] && '\\' !in SplitPath(s)[i]
  {
    SplitChars(s, '/', '\\');
    forall i | 0 <= i < |SplitPath(s)|
      ensures SplitPath(s)[i] != "" && '/' !in SplitPath(s)[i] && '\\' !in SplitPath(s)[i]
    {
      NonEmptyParts(Split(s, '/'), SplitPath(s)[i]);
    }
  }

  // ----- what the parts are

  /** The parts `at` tells are kept, in their order. */
  predicate Kept(parts: seq<string>, at: seq<nat>, kept: seq<string>) {
    && |at| == |kept| && (forall j, k :: 0 <= j < k < |at| ==> at[j] < at[k])
    && forall k :: 0 <= k < |at| ==> at[k] < |parts| && kept[k] == parts[at[k]]
  }

  /** The places `at` are those of the parts other than `x`. */
  ghost predicate AllBut(parts: seq<string>, at: seq<nat>, x: string) {
    forall i: nat :: i in at <==> i < |parts| && parts[i] != x
  }

  lemma AppendPart(parts: seq<string>, at: seq<nat>, kept: seq<string>, last: string, x: string)
    requires Kept(parts, at, kept) && AllBut(parts, at, x)
    ensures last == x ==> Kept(parts + [last], at, kept) && AllBut(parts + [last], at, x)
    ensures last != x ==> Kept(parts + [last], at + [|parts|], kept + [last]) && AllBut(parts + [last], at + [|parts|], x)
  {
  }

  lemma {:induction false} WithoutDotsKept(parts: seq<string>) returns (at: seq<nat>)
    ensures Kept(parts, at, WithoutDots(parts)) && AllBut(parts, at, ".")
    decreases |parts|
  {
    at := [];
    if parts != [] {
      hide Kept, AllBut;
      var n := |parts| - 1;
      at := WithoutDotsKept(parts[..n]);
      AppendPart(parts[..n], at, WithoutDots(parts[..n]), parts[n], ".");
      assert parts == parts[..n] + [parts[n]];
      if parts[n] != "." {
        at := at + [n];
      }
    }
  }

  lemma {:induction false} NonEmptyAppend(parts: seq<string>, last: string)
    ensures NonEmpty(parts + [last]) == NonEmpty(parts) + if last == "" then [] else [last]
    decreases |parts|
  {
    if parts != [] {
      assert (parts + [last])[1..] == parts[1..] + [last];
      NonEmptyAppend(parts[1..], last);
    }
  }

  lemma {:induction false} NonEmptyKept(parts: seq<string>) returns (at: seq<nat>)
    ensures Kept(parts, at, NonEmpty(parts)) && AllBut(parts, at, "")
    decreases |parts|
  {
    at := [];
    if parts != [] {
      hide Kept, AllBut, NonEmpty;
      var n := |parts| - 1;
      at := NonEmptyKept(parts[..n]);
      AppendPart(parts[..n], at, NonEmpty(parts[..n]), parts[n], "");
      NonEmptyAppend(parts[..n], parts[n]);
      assert parts == parts[..n] + [parts[n]];
      if parts[n] != "" {
        at := at + [n];
      }
    }
  }

  lemma KeptTwice(parts: seq<string>, a: seq<nat>, some: seq<string>, b: seq<nat>, kept: seq<string>) returns (at: seq<nat>)
    requires Kept(parts, a, some) && Kept(some, b, kept)
    ensures Kept(parts, at, kept) && |at| == |b| && forall k :: 0 <= k < |b| ==> at[k] == a[b[k]]
  {
    at := seq(|b|, k requires 0 <= k < |b| => a[b[k]]);
  }

  /** `s` consists of the parts with a slash of either kind between each two. */
  predicate Slashed(s: string, parts: seq<string>)
    requires parts != []
  {
    var t := Join(parts, '/');
    |s| == |t| && forall i :: 0 <= i < |t| ==> s[i] == t[i] || (s[i] == '\\' && t[i] == '/')
  }

  predicate NoSlash(parts: seq<string>) {
    forall i :: 0 <= i < |parts| ==> '/' !in parts[i] && '\\' !in parts[i]
  }

  lemma {:induction false} JoinChars(parts: seq<string>)
    requires parts != [] && NoSlash(parts)
    ensures '\\' !in Join(parts, '/')
    decreases |parts|
  {
    if |parts| > 1 {
      JoinChars(parts[1..]);
    }
  }

  lemma SplitOfSlashed(s: string, parts: seq<string>)
    requires parts != [] && NoSlash(parts) && Slashed(s, parts)
    ensures Flatten(s) == Join(parts, '/') && SplitPath(Flatten(s)) == NonEmpty(parts)
  {
    JoinChars(parts);
    var t := Join(parts, '/');
    forall i | 0 <= i < |s|
      ensures Flatten(s)[i] == t[i]
    {
      assert t[i] != '\\';
    }
    assert Flatten(s) == t;
    SplitOfJoin(parts, '/');
  }

  lemma FirstChar(s: string, parts: seq<string>)
    requires parts != [] && NoSlash(parts) && Slashed(s, parts)
    ensures parts[0] == "" <==> s == "" || s[0] == '/' || s[0] == '\\'
  {
    if parts[0] != "" {
      assert Join(parts, '/')[0] == parts[0][0];
      assert parts[0][0] in parts[0];
    } else if |parts| > 1 {
      assert Join(parts, '/')[0] == '/';
    }
  }

  /** Every text is a list of parts with slashes of either kind between them. It is refused when it begins with an
      empty part, which makes it empty or absolute, when its second character is a colon, and when a part is "..";
      of the parts all but the empty ones and the dots are kept. */
  lemma PathMeans(s: string, parts: seq<string>) returns (at: seq<nat>)
    requires parts != [] && NoSlash(parts) && Slashed(s, parts)
    ensures Rejected(s) <==> parts[0] == "" || (|s| >= 2 && s[1] == ':') || ".." in parts
    ensures var kept := WithoutDots(SplitPath(Flatten(s)));
      && |at| == |kept| && (forall j, k :: 0 <= j < k < |at| ==> at[j] < at[k])
      && (forall k :: 0 <= k < |at| ==> at[k] < |parts| && kept[k] == parts[at[k]])
    ensures forall i: nat :: i in at <==> i < |parts| && parts[i] != "" && parts[i] != "."
  {
    hide Slashed, NoSlash, Join;
    SplitOfSlashed(s, parts);
    FirstChar(s, parts);
    var some := NonEmpty(parts);
    var a := NonEmptyKept(parts);
    var b := WithoutDotsKept(some);
    at := KeptTwice(parts, a, some, b, WithoutDots(some));
    forall i: nat
      ensures i in at <==> i < |parts| && parts[i] != "" && parts[i] != "."
    {
      if i < |parts| && parts[i] != "" && parts[i] != "." {
        var j :| 0 <= j < |a| && a[j] == i;
        assert some[j] == parts[i];
        var k :| 0 <= k < |b| && b[k] == j;
        assert at[k] == i;
      }
    }
    assert ".." in some <==> ".." in parts by {
      if ".." in parts {
        var i :| 0 <= i < |parts| && parts[i] == "..";
        var j :| 0 <= j < |a| && a[j] == i;
        assert some[j] == "..";
      }
    }
  }

  /** Every text has such parts. */
  lemma HasParts(s: string) returns (parts: seq<string>)
    ensures parts != [] && NoSlash(parts) && Slashed(s, parts)
  {
    parts := Split(Flatten(s), '/');
    JoinOfSplit(Flatten(s), '/');
    SplitChars(Flatten(s), '/', '\\');
  }

  /** ancestor_directories: every proper prefix, shortest first. */
  method AncestorDirectories(p: Path) returns (ds: seq<Path>)
    ensures |ds| == (if p == [] then 0 else |p| - 1) && forall i :: 0 <= i < |ds| ==> ds[i] == p[..i + 1]
  {
    ds := [];
    if |p| < 2 {
      return;
    }
    var current: Path := [];
    for i := 0 to |p| - 1
      invariant current == p[..i] && |ds| == i && forall k :: 0 <= k < i ==> ds[k] == p[..k + 1]
    {
      current := current + [p[i]];
      ds := ds + [current];
    }
  }
}
