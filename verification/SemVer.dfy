/** Versions and their precedence (Semantic Versioning 2.0.0, clause 11). */
module SemVer {
  import opened Strings

  datatype Version = Version(major: nat, minor: nat, patch: nat, pre: string, build: string)

  predicate Digit(c: char) {
    '0' <= c <= '9'
  }

  predicate AllDigits(s: string) {
    s != [] && forall i :: 0 <= i < |s| ==> Digit(s[i])
  }

  /** One identifier against another: numbers by size, numbers before words, words by characters. */
  function ComparePart(a: string, b: string): int {
    if AllDigits(a) && AllDigits(b) then (if |a| != |b| then |a| - |b| else Compare(a, b))
    else if AllDigits(a) != AllDigits(b) then (if AllDigits(a) then -1 else 1)
    else Compare(a, b)
  }

  /** Identifier by identifier; a list that runs out first is before the other. */
  function CompareParts(a: seq<string>, b: seq<string>): int
    decreases |a|
  {
    if a == [] || b == [] then |a| - |b|
    else if ComparePart(a[0], b[0]) != 0 then ComparePart(a[0], b[0])
    else CompareParts(a[1..], b[1..])
  }

  /** A version with a pre-release is before the one without. */
  function ComparePre(a: string, b: string): int {
    if a == [] && b == [] then 0
    else if a == [] then 1
    else if b == [] then -1
    else CompareParts(Split(a, '.'), Split(b, '.'))
  }

  function Precedence(a: Version, b: Version): int {
    if a.major != b.major then a.major - b.major
    else if a.minor != b.minor then a.minor - b.minor
    else if a.patch != b.patch then a.patch - b.patch
    else ComparePre(a.pre, b.pre)
  }

  /** operator==: build data does not count. */
  predicate Same(a: Version, b: Version) {
    a.major == b.major && a.minor == b.minor && a.patch == b.patch && a.pre == b.pre
  }

  // ----- a total order

  lemma PartSwap(a: string, b: string)
    ensures ComparePart(a, b) < 0 <==> ComparePart(b, a) > 0
    ensures ComparePart(a, b) == 0 <==> a == b
  {
    CompareSwap(a, b);
    CompareSwap(b, a);
  }

  lemma PartTrans(a: string, b: string, c: string)
    requires ComparePart(a, b) <= 0 && ComparePart(b, c) <= 0
    ensures ComparePart(a, c) <= 0 && (ComparePart(a, b) < 0 || ComparePart(b, c) < 0 ==> ComparePart(a, c) < 0)
  {
    if Compare(a, b) <= 0 && Compare(b, c) <= 0 {
      CompareTrans(a, b, c);
    }
  }

  lemma {:induction false} PartsSwap(a: seq<string>, b: seq<string>)
    ensures CompareParts(a, b) < 0 <==> CompareParts(b, a) > 0
    ensures CompareParts(a, b) == 0 <==> a == b
    decreases |a|
  {
    if a != [] && b != [] {
      PartSwap(a[0], b[0]);
      PartSwap(b[0], a[0]);
      PartsSwap(a[1..], b[1..]);
      assert a == [a[0]] + a[1..] && b == [b[0]] + b[1..];
    }
  }

  lemma {:induction false} PartsTrans(a: seq<string>, b: seq<string>, c: seq<string>)
    requires CompareParts(a, b) <= 0 && CompareParts(b, c) <= 0
    ensures CompareParts(a, c) <= 0 && (CompareParts(a, b) < 0 || CompareParts(b, c) < 0 ==> CompareParts(a, c) < 0)
    decreases |a|
  {
    if a != [] && b != [] && c != [] {
      PartTrans(a[0], b[0], c[0]);
      PartSwap(a[0], b[0]);
      PartSwap(b[0], c[0]);
      PartSwap(a[0], c[0]);
      if a[0] == b[0] == c[0] {
        PartsTrans(a[1..], b[1..], c[1..]);
      }
    }
  }

  lemma PreSwap(a: string, b: string)
    ensures ComparePre(a, b) < 0 <==> ComparePre(b, a) > 0
    ensures ComparePre(a, b) == 0 <==> a == b
  {
    PartsSwap(Split(a, '.'), Split(b, '.'));
    PartsSwap(Split(b, '.'), Split(a, '.'));
    JoinOfSplit(a, '.');
    JoinOfSplit(b, '.');
  }

  lemma PreTrans(a: string, b: string, c: string)
    requires ComparePre(a, b) <= 0 && ComparePre(b, c) <= 0
    ensures ComparePre(a, c) <= 0 && (ComparePre(a, b) < 0 || ComparePre(b, c) < 0 ==> ComparePre(a, c) < 0)
  {
    if a != [] && b != [] && c != [] {
      PartsTrans(Split(a, '.'), Split(b, '.'), Split(c, '.'));
    }
  }

  predicate Le(a: Version, b: Version) {
    Precedence(a, b) <= 0
  }

  predicate Lt(a: Version, b: Version) {
    Precedence(a, b) < 0
  }

  /** Precedence is a total order, and equality in it is `==`. */
  lemma PrecedenceIsTotalOrder(a: Version, b: Version, c: Version)
    ensures Le(a, b) || Le(b, a)
    ensures Le(a, b) && Le(b, c) ==> Le(a, c)
    ensures Le(a, b) && Le(b, a) <==> Same(a, b)
    ensures Lt(a, b) <==> !Le(b, a)
    ensures Le(a, b) && Lt(b, c) ==> Lt(a, c)
    ensures Lt(a, b) && Le(b, c) ==> Lt(a, c)
  {
    PreSwap(a.pre, b.pre);
    PreSwap(b.pre, a.pre);
    if ComparePre(a.pre, b.pre) <= 0 && ComparePre(b.pre, c.pre) <= 0 {
      PreTrans(a.pre, b.pre, c.pre);
    }
  }

  // ----- what the order is

  /** Digits are the ten of them. */
  lemma DigitsAre(c: char)
    ensures Digit(c) <==> c in "0123456789"
  {
    assert "0123456789" == ['0', '1', '2', '3', '4', '5', '6', '7', '8', '9'];
  }

  /** Major, minor and patch decide in this order; between versions of one triple a pre-release is before the release. */
  lemma LtMeans(a: Version, b: Version)
    ensures a.major != b.major ==> (Lt(a, b) <==> a.major < b.major)
    ensures a.major == b.major && a.minor != b.minor ==> (Lt(a, b) <==> a.minor < b.minor)
    ensures a.major == b.major && a.minor == b.minor && a.patch != b.patch ==> (Lt(a, b) <==> a.patch < b.patch)
    ensures a.major == b.major && a.minor == b.minor && a.patch == b.patch && b.pre == "" ==> (Lt(a, b) <==> a.pre != "")
    ensures a.major == b.major && a.minor == b.minor && a.patch == b.patch && a.pre == "" ==> !Lt(a, b)
  {
  }

  /** Identifiers at the first place where two lists differ decide; a list that only goes on is greater. */
  lemma {:induction false} FirstDifference(front: seq<string>, x: string, a: seq<string>, y: string, b: seq<string>)
    ensures x != y ==> CompareParts(front + [x] + a, front + [y] + b) == ComparePart(x, y)
    ensures CompareParts(front, front + [x] + a) < 0
    decreases |front|
  {
    var l, r := front + [x] + a, front + [y] + b;
    if front != [] {
      var rest := front[1..];
      assert l[1..] == rest + [x] + a && r[1..] == rest + [y] + b;
      PartSwap(front[0], front[0]);
      FirstDifference(rest, x, a, y, b);
    } else {
      PartSwap(x, y);
    }
  }

  /** Numbers are before words, and words are ordered by characters. */
  lemma WordsAndNumbers(a: string, b: string)
    ensures AllDigits(a) && !AllDigits(b) ==> ComparePart(a, b) < 0 < ComparePart(b, a)
    ensures !AllDigits(a) && !AllDigits(b) ==>
      (ComparePart(a, b) < 0 <==> exists k :: 0 <= k <= |a| && k < |b| && a[..k] == b[..k] && (k < |a| ==> a[k] < b[k]))
  {
    CompareMeans(a, b);
  }

  lemma OneOrTwoParts(a: string, b: string)
    requires '.' !in a && '.' !in b
    ensures Split(a, '.') == [a] && Split(a + "." + b, '.') == [a, b]
  {
    SplitOfJoin([a], '.');
    SplitOfJoin([a, b], '.');
    assert Join([a, b], '.') == a + ['.'] + b;
  }

  function Draft(pre: string): Version {
    Version(1, 0, 0, pre, "")
  }

  lemma DraftsBy(a: string, p: seq<string>, b: string, q: seq<string>)
    requires a != "" && b != "" && Split(a, '.') == p && Split(b, '.') == q
    ensures Lt(Draft(a), Draft(b)) <==> CompareParts(p, q) < 0
  {
  }

  lemma Chain()
    ensures Lt(Draft("alpha"), Draft("alpha" + "." + "1")) && Lt(Draft("alpha" + "." + "1"), Draft("alpha" + "." + "beta"))
    ensures Lt(Draft("alpha" + "." + "beta"), Draft("beta")) && Lt(Draft("beta"), Draft("beta" + "." + "2"))
    ensures Lt(Draft("beta" + "." + "2"), Draft("beta" + "." + "11")) && Lt(Draft("beta" + "." + "11"), Draft("rc" + "." + "1"))
    ensures Lt(Draft("rc" + "." + "1"), Draft(""))
  {
    PartExamples();
    LtMeans(Draft("rc" + "." + "1"), Draft(""));
    hide Lt, Split, ComparePart, CompareParts;
    Longer("alpha", "1");
    Longer("beta", "2");
    Second("alpha", "1", "beta");
    Second("beta", "2", "11");
    First("alpha", "beta", "beta");
    FirstOfTwo("beta", "11", "rc", "1");
  }

  /** The example of clause 11.4. */
  lemma Clause11()
    ensures Lt(Draft("alpha"), Draft("alpha.1")) && Lt(Draft("alpha.1"), Draft("alpha.beta"))
    ensures Lt(Draft("alpha.beta"), Draft("beta")) && Lt(Draft("beta"), Draft("beta.2"))
    ensures Lt(Draft("beta.2"), Draft("beta.11")) && Lt(Draft("beta.11"), Draft("rc.1"))
    ensures Lt(Draft("rc.1"), Draft(""))
  {
    hide *;
    Chain();
    assert "alpha" + "." + "1" == "alpha.1" && "alpha" + "." + "beta" == "alpha.beta" && "beta" + "." + "2" == "beta.2";
    assert "beta" + "." + "11" == "beta.11" && "rc" + "." + "1" == "rc.1";
  }

  lemma Longer(a: string, b: string)
    requires a != "" && '.' !in a && '.' !in b
    ensures Lt(Draft(a), Draft(a + "." + b))
  {
    OneOrTwoParts(a, b);
    FirstDifference([a], b, [], b, []);
    DraftsBy(a, [a], a + "." + b, [a, b]);
    assert [a] + [b] + [] == [a, b];
  }

  lemma Second(a: string, b: string, c: string)
    requires a != "" && '.' !in a && '.' !in b && '.' !in c && b != c
    ensures Lt(Draft(a + "." + b), Draft(a + "." + c)) <==> ComparePart(b, c) < 0
  {
    OneOrTwoParts(a, b);
    OneOrTwoParts(a, c);
    FirstDifference([a], b, [], c, []);
    DraftsBy(a + "." + b, [a, b], a + "." + c, [a, c]);
    assert [a] + [b] + [] == [a, b] && [a] + [c] + [] == [a, c];
  }

  lemma First(a: string, b: string, c: string)
    requires c != "" && '.' !in a && '.' !in b && '.' !in c && a != c
    ensures Lt(Draft(a + "." + b), Draft(c)) <==> ComparePart(a, c) < 0
  {
    OneOrTwoParts(a, b);
    OneOrTwoParts(c, b);
    FirstDifference([], a, [b], c, []);
    DraftsBy(a + "." + b, [a, b], c, [c]);
    assert [] + [a] + [b] == [a, b] && [] + [c] + [] == [c];
  }

  lemma FirstOfTwo(a: string, b: string, c: string, d: string)
    requires '.' !in a && '.' !in b && '.' !in c && '.' !in d && a != c
    ensures Lt(Draft(a + "." + b), Draft(c + "." + d)) <==> ComparePart(a, c) < 0
  {
    OneOrTwoParts(a, b);
    OneOrTwoParts(c, d);
    FirstDifference([], a, [b], c, [d]);
    DraftsBy(a + "." + b, [a, b], c + "." + d, [c, d]);
    assert [] + [a] + [b] == [a, b] && [] + [c] + [d] == [c, d];
  }

  lemma PartExamples()
    ensures ComparePart("1", "beta") < 0 && ComparePart("alpha", "beta") < 0 && ComparePart("2", "11") < 0 && ComparePart("beta", "rc") < 0
  {
    assert !Digit("beta"[0]) && !Digit("alpha"[0]) && !Digit("rc"[0]);
  }

  // ----- clause 11.4: numbers by their value

  /** The number a string of digits denotes. */
  function NumberOf(s: string): nat
    requires forall i :: 0 <= i < |s| ==> Digit(s[i])
  {
    if s == [] then 0
    else
      assert Digit(s[|s| - 1]);
      10 * NumberOf(s[..|s| - 1]) + (s[|s| - 1] as int - '0' as int)
  }

  function Pow10(n: nat): nat {
    if n == 0 then 1 else 10 * Pow10(n - 1)
  }

  lemma {:induction false} NumberFront(s: string)
    requires s != [] && forall i :: 0 <= i < |s| ==> Digit(s[i])
    ensures NumberOf(s) == (s[0] as int - '0' as int) * Pow10(|s| - 1) + NumberOf(s[1..])
    ensures NumberOf(s[1..]) < Pow10(|s| - 1)
    decreases |s|
  {
    var n := |s| - 1;
    if n > 0 {
      var t := s[..n];
      NumberFront(t);
      assert t[1..] == s[1..][..n - 1];
      Distribute(s[0] as int - '0' as int, Pow10(n - 1), NumberOf(t[1..]));
    }
  }

  lemma Distribute(d: int, p: int, r: int)
    ensures 10 * (d * p + r) == d * (10 * p) + 10 * r
  {
  }

  lemma Leading(d: int, e: int, p: nat, x: nat, y: nat)
    requires x < p && y < p && d < e
    ensures d * p + x < e * p + y
  {
    assert (d + 1) * p <= e * p;
  }

  lemma {:induction false} SameLengthNumbers(a: string, b: string)
    requires |a| == |b| && (forall i :: 0 <= i < |a| ==> Digit(a[i])) && forall i :: 0 <= i < |b| ==> Digit(b[i])
    ensures NumberOf(a) < NumberOf(b) <==> Compare(a, b) < 0
    ensures NumberOf(a) == NumberOf(b) <==> Compare(a, b) == 0
    decreases |a|
  {
    if a != [] {
      NumberFront(a);
      NumberFront(b);
      var d, e := a[0] as int - '0' as int, b[0] as int - '0' as int;
      if d < e {
        Leading(d, e, Pow10(|a| - 1), NumberOf(a[1..]), NumberOf(b[1..]));
      } else if e < d {
        Leading(e, d, Pow10(|a| - 1), NumberOf(b[1..]), NumberOf(a[1..]));
      } else {
        SameLengthNumbers(a[1..], b[1..]);
      }
    }
  }

  lemma {:induction false} Pow10Grows(m: nat, n: nat)
    requires m <= n
    ensures 1 <= Pow10(m) <= Pow10(n)
    decreases n
  {
    if m < n {
      Pow10Grows(m, n - 1);
    } else if n > 0 {
      Pow10Grows(n - 1, n - 1);
    }
  }

  lemma {:induction false} NumberBound(a: string)
    requires forall i :: 0 <= i < |a| ==> Digit(a[i])
    ensures NumberOf(a) < Pow10(|a|)
    decreases |a|
  {
    if a != [] {
      assert Digit(a[|a| - 1]);
      NumberBound(a[..|a| - 1]);
    }
  }

  lemma AtLeast(d: int, p: nat, x: nat)
    requires d >= 1
    ensures d * p + x >= p
  {
  }

  lemma ShorterIsLess(a: string, b: string)
    requires AllDigits(a) && AllDigits(b) && |a| < |b| && b[0] != '0'
    ensures NumberOf(a) < NumberOf(b)
  {
    NumberBound(a);
    NumberFront(b);
    Pow10Grows(|a|, |b| - 1);
    assert Digit(b[0]);
    AtLeast(b[0] as int - '0' as int, Pow10(|b| - 1), NumberOf(b[1..]));
  }

  /** Numeric identifiers without leading zeros are ordered by value. */
  lemma NumbersByValue(a: string, b: string)
    requires AllDigits(a) && AllDigits(b) && (|a| > 1 ==> a[0] != '0') && (|b| > 1 ==> b[0] != '0')
    ensures ComparePart(a, b) < 0 <==> NumberOf(a) < NumberOf(b)
    ensures ComparePart(a, b) == 0 <==> NumberOf(a) == NumberOf(b)
  {
    if |a| == |b| {
      SameLengthNumbers(a, b);
    } else if |a| < |b| {
      ShorterIsLess(a, b);
    } else {
      ShorterIsLess(b, a);
    }
  }

  // ----- the loop over both strings

  /** The parts from place `i` on; none when past the end. */
  function RestParts(s: string, i: nat): seq<string>
    requires i <= |s| + 1
  {
    if i > |s| then [] else Split(s[i..], '.')
  }

  lemma FindShift(s: string, c: char, i: nat)
    requires i <= |s|
    ensures Find(s[i..], c, 0) == Find(s, c, i) - i
  {
    FindShiftFrom(s, c, i, i);
  }

  lemma {:induction false} FindShiftFrom(s: string, c: char, i: nat, k: nat)
    requires i <= k <= |s|
    ensures Find(s[i..], c, k - i) == Find(s, c, k) - i
    decreases |s| - k
  {
    if k < |s| && s[k] != c {
      FindShiftFrom(s, c, i, k + 1);
    }
  }

  lemma NextPart(s: string, i: nat)
    requires i <= |s|
    ensures var d := Find(s, '.', i);
      RestParts(s, i) == [s[i..d]] + RestParts(s, if d == |s| then |s| + 1 else d + 1)
  {
    FindShift(s, '.', i);
    var d := Find(s, '.', i);
    assert s[i..][..d - i] == s[i..d];
    if d < |s| {
      assert s[i..][d - i + 1..] == s[d + 1..];
    } else {
      assert s[i..d] == s[i..];
    }
  }

  function Sign(x: int): int {
    if x < 0 then -1 else if x > 0 then 1 else 0
  }

  lemma PartsStep(x: string, a: seq<string>, y: string, b: seq<string>)
    ensures CompareParts([x] + a, [y] + b) == if ComparePart(x, y) != 0 then ComparePart(x, y) else CompareParts(a, b)
  {
    assert ([x] + a)[1..] == a && ([y] + b)[1..] == b;
  }

  method PartOrder(lPart: string, rPart: string) returns (c: int)
    ensures c == ComparePart(lPart, rPart)
  {
    var lNum, rNum := AllDigits(lPart), AllDigits(rPart);
    if lNum && rNum {
      if |lPart| != |rPart| {
        return |lPart| - |rPart|;
      }
      return Compare(lPart, rPart);
    } else if lNum != rNum {
      return if lNum then -1 else 1;
    }
    return Compare(lPart, rPart);
  }

  lemma RestStart(s: string)
    ensures RestParts(s, 0) == Split(s, '.')
  {
    assert s[0..] == s;
  }

  lemma RestDone(a: string, i: nat, b: string, j: nat)
    requires i <= |a| + 1 && j <= |b| + 1
    ensures i > |a| || j > |b| ==>
      Sign(CompareParts(RestParts(a, i), RestParts(b, j))) == if i <= |a| then 1 else if j <= |b| then -1 else 0
  {
  }

  /** compare_prerelease. */
  method ComparePrerelease(lhs: string, rhs: string) returns (c: int)
    ensures Sign(c) == Sign(ComparePre(lhs, rhs))
  {
    hide ComparePart, Split, RestParts, CompareParts;
    if lhs == [] && rhs == [] {
      return 0;
    }
    if lhs == [] {
      return 1;
    }
    if rhs == [] {
      return -1;
    }
    var li: nat, ri: nat := 0, 0;
    RestStart(lhs);
    RestStart(rhs);
    while true
      invariant li <= |lhs| + 1 && ri <= |rhs| + 1
      invariant CompareParts(Split(lhs, '.'), Split(rhs, '.')) == CompareParts(RestParts(lhs, li), RestParts(rhs, ri))
      decreases |lhs| + 1 - li
    {
      var lDone, rDone := li > |lhs|, ri > |rhs|;
      RestDone(lhs, li, rhs, ri);
      if lDone && rDone {
        return 0;
      }
      if lDone {
        return -1;
      }
      if rDone {
        return 1;
      }
      var lDot, rDot := Find(lhs, '.', li), Find(rhs, '.', ri);
      var lNext, rNext := if lDot == |lhs| then |lhs| + 1 else lDot + 1, if rDot == |rhs| then |rhs| + 1 else rDot + 1;
      NextPart(lhs, li);
      NextPart(rhs, ri);
      PartsStep(lhs[li..lDot], RestParts(lhs, lNext), rhs[ri..rDot], RestParts(rhs, rNext));
      c := PartOrder(lhs[li..lDot], rhs[ri..rDot]);
      if c != 0 {
        return;
      }
      li, ri := lNext, rNext;
    }
  }
}
