/** Reading and writing versions as text. */
module VersionText {
  import opened Strings
  import opened SemVer
  import opened Canonical

  predicate IdentifierChar(c: char) {
    'a' <= c <= 'z' || 'A' <= c <= 'Z' || Digit(c) || c == '-'
  }

  predicate Identifier(s: string) {
    s != [] && forall i :: 0 <= i < |s| ==> IdentifierChar(s[i])
  }

  /** Identifiers with dots between them. */
  predicate DotSeparated(s: string) {
    forall i :: 0 <= i < |Split(s, '.')| ==> Identifier(Split(s, '.')[i])
  }

  predicate LeadingZero(s: string) {
    AllDigits(s) && |s| > 1 && s[0] == '0'
  }

  predicate NoLeadingZeros(s: string) {
    forall i :: 0 <= i < |Split(s, '.')| ==> !LeadingZero(Split(s, '.')[i])
  }

  // ----- numbers

  /** std::to_string. */
  function Digits(n: nat): (s: string)
    ensures s != [] && (forall i :: 0 <= i < |s| ==> Digit(s[i])) && (n > 0 ==> s[0] != '0') && (n == 0 ==> s == "0")
    ensures NumberOf(s) == n
  {
    if n < 10 then
      var s := ['0' + (n as char)];
      assert s[..0] == [];
      s
    else
      var t, s := Digits(n / 10), Digits(n / 10) + ['0' + ((n % 10) as char)];
      assert s[..|s| - 1] == t;
      s
  }

  /** The number a field of a version stands for, if it may. */
  function NumericOf(s: string): Option<nat> {
    if AllDigits(s) && |s| <= 9 && !LeadingZero(s) then Some(NumberOf(s)) else None
  }

  /** parse_numeric. */
  method ParseNumeric(s: string) returns (r: Option<nat>)
    ensures r == NumericOf(s)
  {
    if s == [] || |s| > 9 {
      return None;
    }
    if |s| > 1 && s[0] == '0' {
      return None;
    }
    var value: nat := 0;
    for i := 0 to |s|
      invariant forall k :: 0 <= k < i ==> Digit(s[k])
      invariant value == NumberOf(s[..i])
    {
      if !Digit(s[i]) {
        return None;
      }
      assert s[..i + 1][..i] == s[..i];
      value := value * 10 + (s[i] as int - '0' as int);
    }
    assert s[..|s|] == s;
    r := Some(value);
  }

  lemma {:induction false} DigitsShort(n: nat, k: nat)
    requires n < Pow10(k) && k >= 1
    ensures |Digits(n)| <= k
    decreases k
  {
    if n >= 10 {
      assert Pow10(1) == 10;
      DigitsShort(n / 10, k - 1);
    }
  }

  // ----- dotted identifiers

  /** valid_dot_separated. */
  method ValidDotSeparated(s: string) returns (ok: bool)
    ensures ok <==> s != [] && DotSeparated(s)
  {
    hide Split;
    if s == [] {
      return false;
    }
    var start: nat := 0;
    RestStart(s);
    ghost var done: seq<string> := [];
    while true
      invariant start <= |s| && done + RestParts(s, start) == Split(s, '.')
      invariant forall i :: 0 <= i < |done| ==> Identifier(done[i])
      decreases |s| - start
    {
      var dot := Find(s, '.', start);
      var part := s[start..dot];
      NextPart(s, start);
      assert Split(s, '.')[|done|] == part;
      if part == [] {
        return false;
      }
      for i := 0 to |part|
        invariant forall k :: 0 <= k < i ==> IdentifierChar(part[k])
      {
        if !IdentifierChar(part[i]) {
          return false;
        }
      }
      if dot == |s| {
        PastEnd(s);
        return true;
      }
      done := done + [part];
      start := dot + 1;
    }
  }

  lemma PastEnd(s: string)
    ensures RestParts(s, |s| + 1) == []
  {
  }

  /** The check for leading zeros in numeric identifiers. */
  method HasNoLeadingZeros(s: string) returns (ok: bool)
    ensures ok <==> NoLeadingZeros(s)
  {
    hide Split, LeadingZero;
    var start: nat := 0;
    RestStart(s);
    ghost var done: seq<string> := [];
    while start <= |s|
      invariant start <= |s| && done + RestParts(s, start) == Split(s, '.')
      invariant forall i :: 0 <= i < |done| ==> !LeadingZero(done[i])
      decreases |s| - start
    {
      var dot := Find(s, '.', start);
      NextPart(s, start);
      assert Split(s, '.')[|done|] == s[start..dot];
      if LeadingZero(s[start..dot]) {
        return false;
      }
      done := done + [s[start..dot]];
      if dot == |s| {
        PastEnd(s);
        break;
      }
      start := dot + 1;
    }
    ok := true;
  }

  // ----- whole versions

  predicate Blank(c: char) {
    c == ' ' || c == '\t'
  }

  function Trim(s: string): string {
    if s == [] then s
    else if Blank(s[0]) then Trim(s[1..])
    else if Blank(s[|s| - 1]) then Trim(s[..|s| - 1])
    else s
  }

  /** Version::parse up to the three numbers: the parts after `+`, after `-`, and before both. */
  datatype Cut = Cut(core: string, pre: string, build: string, hasPre: bool, hasBuild: bool)

  function CutVersion(s: string): Cut {
    var plus := Find(s, '+', 0);
    var front := s[..plus];
    var dash := Find(front, '-', 0);
    Cut(front[..dash], if dash < |front| then front[dash + 1..] else "", if plus < |s| then s[plus + 1..] else "", dash < |front|, plus < |s|)
  }

  function WithoutV(s: string): string {
    if s != [] && (s[0] == 'v' || s[0] == 'V') then s[1..] else s
  }

  function CoreOf(parts: seq<string>, pre: string, build: string): Option<Version> {
    if |parts| != 3 then None
    else
      match NumericOf(parts[0])
      case None => None
      case Some(major) =>
        match NumericOf(parts[1])
        case None => None
        case Some(minor) =>
          match NumericOf(parts[2])
          case None => None
          case Some(patch) => Some(Version(major, minor, patch, pre, build))
  }

  function Parsed(text: string): Option<Version> {
    var t := Trim(text);
    if t == [] then None
    else
      var c := CutVersion(WithoutV(t));
      if c.hasBuild && (c.build == [] || !DotSeparated(c.build)) then None
      else if c.hasPre && (c.pre == [] || !DotSeparated(c.pre) || !NoLeadingZeros(c.pre)) then None
      else CoreOf(Split(c.core, '.'), c.pre, c.build)
  }

  lemma CoreParts(core: string, first: nat, second: nat, third: nat)
    requires first == Find(core, '.', 0) && second == Find(core, '.', if first < |core| then first + 1 else first)
    requires third == Find(core, '.', if second < |core| then second + 1 else second)
    ensures first == |core| ==> |Split(core, '.')| == 1
    ensures first < |core| && second == |core| ==> |Split(core, '.')| == 2
    ensures second < |core| && third == |core| ==> Split(core, '.') == [core[..first], core[first + 1..second], core[second + 1..]]
    ensures third < |core| ==> |Split(core, '.')| > 3
  {
    hide Split, RestParts, Find;
    RestStart(core);
    NextPart(core, 0);
    PastEnd(core);
    if first < |core| {
      NextPart(core, first + 1);
      if second < |core| {
        NextPart(core, second + 1);
        assert core[0..first] == core[..first];
        if third < |core| {
          NextPart(core, third + 1);
        } else {
          assert core[second + 1..third] == core[second + 1..];
        }
      }
    }
  }

  /** The core must have exactly two dots. */
  method ParseCore(core: string, pre: string, build: string) returns (r: Option<Version>)
    ensures r == CoreOf(Split(core, '.'), pre, build)
  {
    hide Split, NumericOf;
    var first := Find(core, '.', 0);
    var second := Find(core, '.', if first < |core| then first + 1 else first);
    var third := Find(core, '.', if second < |core| then second + 1 else second);
    CoreParts(core, first, second, third);
    if first == |core| || second == |core| || third < |core| {
      return None;
    }
    var major := ParseNumeric(core[..first]);
    var minor := ParseNumeric(core[first + 1..second]);
    var patch := ParseNumeric(core[second + 1..]);
    if major.None? || minor.None? || patch.None? {
      return None;
    }
    r := Some(Version(major.value, minor.value, patch.value, pre, build));
  }

  /** Version::parse. */
  method Parse(text: string) returns (r: Option<Version>)
    ensures r == Parsed(text)
  {
    hide Split, CoreOf, DotSeparated, NoLeadingZeros;
    var t := Trim(text);
    if t == [] {
      return None;
    }
    var c := CutVersion(WithoutV(t));
    if c.hasBuild {
      var ok := ValidDotSeparated(c.build);
      if !ok {
        return None;
      }
    }
    if c.hasPre {
      var ok := ValidDotSeparated(c.pre);
      if !ok {
        return None;
      }
      ok := HasNoLeadingZeros(c.pre);
      if !ok {
        return None;
      }
    }
    r := ParseCore(c.core, c.pre, c.build);
  }

  /** Version::to_string. */
  function ToString(v: Version): string {
    Digits(v.major) + "." + Digits(v.minor) + "." + Digits(v.patch)
    + (if v.pre == [] then "" else "-" + v.pre) + (if v.build == [] then "" else "+" + v.build)
  }

  /** What every parsed version is like. */
  predicate WellFormed(v: Version) {
    && v.major < 1000000000 && v.minor < 1000000000 && v.patch < 1000000000
    && (v.pre == [] || (DotSeparated(v.pre) && NoLeadingZeros(v.pre))) && (v.build == [] || DotSeparated(v.build))
  }

  lemma NumericOfDigits(n: nat)
    requires n < 1000000000
    ensures NumericOf(Digits(n)) == Some(n)
  {
    assert Pow10(9) == 1000000000 by {
      assert Pow10(3) == 1000;
      assert Pow10(6) == 1000000;
    }
    DigitsShort(n, 9);
  }

  lemma {:induction false} NumberSmall(s: string)
    requires (forall i :: 0 <= i < |s| ==> Digit(s[i])) && |s| <= 9
    ensures NumberOf(s) < 1000000000
  {
    NumberBound(s);
    Pow10Grows(|s|, 9);
    assert Pow10(9) == 1000000000 by {
      assert Pow10(3) == 1000;
      assert Pow10(6) == 1000000;
    }
  }

  /** Parsing gives only well-formed versions. */
  lemma ParsedIsWellFormed(text: string)
    requires Parsed(text).Some?
    ensures WellFormed(Parsed(text).value)
  {
    hide DotSeparated, NoLeadingZeros, Split, AllDigits;
    var c := CutVersion(WithoutV(Trim(text)));
    var parts := Split(c.core, '.');
    PartSmall(parts[0]);
    PartSmall(parts[1]);
    PartSmall(parts[2]);
  }

  lemma PartSmall(s: string)
    ensures NumericOf(s).Some? ==> NumericOf(s).value < 1000000000
  {
    if NumericOf(s).Some? {
      NumberSmall(s);
    }
  }

  // ----- the round trip

  predicate PlainChars(s: string) {
    forall i :: 0 <= i < |s| ==> IdentifierChar(s[i]) || s[i] == '.'
  }

  lemma {:induction false} JoinPlain(parts: seq<string>)
    requires |parts| >= 1 && forall i :: 0 <= i < |parts| ==> Identifier(parts[i])
    ensures PlainChars(Join(parts, '.'))
    decreases |parts|
  {
    if |parts| > 1 {
      JoinPlain(parts[1..]);
    }
  }

  lemma DottedIsPlain(s: string)
    requires DotSeparated(s)
    ensures PlainChars(s)
  {
    JoinPlain(Split(s, '.'));
    JoinOfSplit(s, '.');
  }

  lemma TrimNothing(s: string)
    requires s != [] && !Blank(s[0]) && !Blank(s[|s| - 1])
    ensures Trim(s) == s
  {
  }

  function CoreText(v: Version): string {
    Digits(v.major) + "." + Digits(v.minor) + "." + Digits(v.patch)
  }

  lemma JoinThree(a: string, b: string, c: string)
    ensures Join([a, b, c], '.') == a + "." + b + "." + c
  {
    assert Join([c], '.') == c;
    assert [b, c][1..] == [c] && [a, b, c][1..] == [b, c];
    assert Join([b, c], '.') == b + ['.'] + c;
    assert a + ['.'] + (b + ['.'] + c) == a + "." + b + "." + c;
  }

  lemma CoreTextSplits(v: Version)
    ensures Split(CoreText(v), '.') == [Digits(v.major), Digits(v.minor), Digits(v.patch)]
    ensures PlainChars(CoreText(v)) && '-' !in CoreText(v) && CoreText(v) != [] && Digit(CoreText(v)[0])
  {
    hide Split, Digits, Join, Find;
    var a, b, c := Digits(v.major), Digits(v.minor), Digits(v.patch);
    JoinThree(a, b, c);
    NoDots(a);
    NoDots(b);
    NoDots(c);
    SplitOfJoin([a, b, c], '.');
  }

  lemma NoDots(s: string)
    requires forall i :: 0 <= i < |s| ==> Digit(s[i])
    ensures '.' !in s && '-' !in s
  {
  }

  /** The text up to the build data. */
  function FrontText(v: Version): string {
    CoreText(v) + (if v.pre == [] then "" else "-" + v.pre)
  }

  lemma CutFront(v: Version)
    requires WellFormed(v)
    ensures var f := FrontText(v); var dash := Find(f, '-', 0);
      (f[..dash] == CoreText(v) && (dash < |f| <==> v.pre != []) && (dash < |f| ==> f[dash + 1..] == v.pre))
    ensures PlainChars(FrontText(v)) && '+' !in FrontText(v)
  {
    hide Split, NoLeadingZeros;
    CoreTextSplits(v);
    if v.pre == [] {
      FindNothing(CoreText(v), '-', 0);
      assert FrontText(v) == CoreText(v);
    } else {
      DottedIsPlain(v.pre);
      FindSkips(CoreText(v), '-', v.pre, 0);
      assert FrontText(v) == CoreText(v) + ['-'] + v.pre;
    }
  }

  lemma CutText(v: Version)
    requires WellFormed(v)
    ensures CutVersion(ToString(v)) == Cut(CoreText(v), v.pre, v.build, v.pre != [], v.build != [])
  {
    hide Split, NoLeadingZeros, DotSeparated, Digits;
    CutFront(v);
    var f, s := FrontText(v), ToString(v);
    if v.build == [] {
      assert s == f;
      FindNothing(f, '+', 0);
      assert f[..|f|] == f;
    } else {
      assert s == f + ['+'] + v.build;
      FindSkips(f, '+', v.build, 0);
      assert s[..|f|] == f && s[|f| + 1..] == v.build;
    }
  }

  lemma TextEnds(v: Version)
    requires WellFormed(v)
    ensures var s := ToString(v); s != [] && Digit(s[0]) && !Blank(s[|s| - 1])
  {
    hide Split, NoLeadingZeros;
    CutFront(v);
    CoreTextSplits(v);
    if v.build != [] {
      DottedIsPlain(v.build);
    }
    var f, s := FrontText(v), ToString(v);
    assert s == f + (if v.build == [] then "" else "+" + v.build);
    assert s[0] == CoreText(v)[0];
  }

  /** Writing a version and reading it back changes nothing. */
  lemma ParseUndoesToString(v: Version)
    requires WellFormed(v)
    ensures Parsed(ToString(v)) == Some(v)
  {
    hide Split, NoLeadingZeros, DotSeparated, NumericOf, Digits, Find, CutVersion, CoreText, ToString, Trim;
    TextEnds(v);
    TrimNothing(ToString(v));
    CutText(v);
    CoreTextSplits(v);
    NumericOfDigits(v.major);
    NumericOfDigits(v.minor);
    NumericOfDigits(v.patch);
  }

  // ----- the texts that are read

  predicate Blanks(s: string) {
    forall i :: 0 <= i < |s| ==> s[i] == ' ' || s[i] == '\t'
  }

  lemma {:induction false} TrimBetween(left: string, s: string, right: string)
    requires Blanks(left) && Blanks(right) && s != [] && !Blank(s[0]) && !Blank(s[|s| - 1])
    ensures Trim(left + s + right) == s
    decreases |left| + |right|
  {
    var t := left + s + right;
    if left != [] {
      assert t[0] == left[0] && t[1..] == left[1..] + s + right;
      TrimBetween(left[1..], s, right);
    } else if right != [] {
      var n := |right| - 1;
      assert t[0] == s[0] && t[|t| - 1] == right[n] && t[..|t| - 1] == left + s + right[..n];
      TrimBetween(left, s, right[..n]);
    } else {
      assert t == s;
    }
  }

  lemma {:induction false} TrimLeaves(s: string) returns (left: string, right: string)
    ensures Blanks(left) && Blanks(right) && s == left + Trim(s) + right
    decreases |s|
  {
    left, right := "", "";
    if s != [] && Blank(s[0]) {
      left, right := TrimLeaves(s[1..]);
      left := [s[0]] + left;
      assert s == [s[0]] + s[1..];
    } else if s != [] && Blank(s[|s| - 1]) {
      left, right := TrimLeaves(s[..|s| - 1]);
      right := right + [s[|s| - 1]];
      assert s == s[..|s| - 1] + [s[|s| - 1]];
    }
  }

  /** A version is read from its text with blanks around it and perhaps a v in front. */
  lemma ParsedFromText(left: string, mark: string, v: Version, right: string)
    requires WellFormed(v) && Blanks(left) && Blanks(right) && mark in {"", "v", "V"}
    ensures Parsed(left + mark + ToString(v) + right) == Some(v)
  {
    hide WellFormed, ToString, Trim, CutVersion, CoreOf, DotSeparated, NoLeadingZeros, Split;
    TextEnds(v);
    var s := mark + ToString(v);
    assert left + mark + ToString(v) + right == left + s + right;
    TrimBetween(left, s, right);
    assert WithoutV(s) == ToString(v) by {
      assert mark != "" ==> s[1..] == ToString(v);
    }
    ParseUndoesToString(v);
    assert WithoutV(ToString(v)) == ToString(v);
    TrimNothing(ToString(v));
  }

  lemma NumberPositive(s: string)
    requires AllDigits(s) && s[0] != '0'
    ensures NumberOf(s) > 0
  {
    NumberFront(s);
    Pow10Grows(0, |s| - 1);
    assert Digit(s[0]);
    AtLeast(s[0] as int - '0' as int, Pow10(|s| - 1), NumberOf(s[1..]));
  }

  /** A number without leading zeros is written in one way. */
  lemma {:induction false} DigitsOfNumber(s: string)
    requires AllDigits(s) && !LeadingZero(s)
    ensures Digits(NumberOf(s)) == s
    decreases |s|
  {
    var n := |s| - 1;
    var t := s[..n];
    assert Digit(s[n]) && s == t + [s[n]];
    if n > 0 {
      NumberPositive(t);
      DigitsOfNumber(t);
    } else {
      assert t == [];
    }
  }

  lemma NumericText(s: string)
    requires NumericOf(s).Some?
    ensures s == Digits(NumericOf(s).value)
  {
    DigitsOfNumber(s);
  }

  lemma CoreIsText(core: string, v: Version)
    requires CoreOf(Split(core, '.'), v.pre, v.build) == Some(v)
    ensures core == CoreText(v)
  {
    hide NumericOf, Digits, Split;
    var parts := Split(core, '.');
    NumericText(parts[0]);
    NumericText(parts[1]);
    NumericText(parts[2]);
    JoinOfSplit(core, '.');
    JoinThree(parts[0], parts[1], parts[2]);
    assert parts == [parts[0], parts[1], parts[2]];
  }

  lemma CutLeaves(s: string)
    ensures var c := CutVersion(s); s == c.core + (if c.hasPre then "-" + c.pre else "") + (if c.hasBuild then "+" + c.build else "")
  {
    hide Find;
    var plus := Find(s, '+', 0);
    var front := s[..plus];
    var dash := Find(front, '-', 0);
    assert front == front[..dash] + front[dash..] && s == front + s[plus..];
    assert dash < |front| ==> front[dash..] == ['-'] + front[dash + 1..];
    assert plus < |s| ==> s[plus..] == ['+'] + s[plus + 1..];
  }

  /** What is left after the blanks and the v is the version's text. */
  lemma InnerText(s: string, v: Version)
    requires var c := CutVersion(s); CoreOf(Split(c.core, '.'), c.pre, c.build) == Some(v)
    requires var c := CutVersion(s); (c.hasPre ==> c.pre != []) && (c.hasBuild ==> c.build != [])
    ensures s == ToString(v)
  {
    hide CutVersion, CoreOf, Split, ToString, CoreText;
    var c := CutVersion(s);
    CutLeaves(s);
    NoneWithout(s);
    CoreKeeps(Split(c.core, '.'), c.pre, c.build);
    CoreIsText(c.core, v);
    TextIs(v);
  }

  lemma ParsedInner(text: string)
    requires Parsed(text).Some?
    ensures Trim(text) != [] && WithoutV(Trim(text)) == ToString(Parsed(text).value)
  {
    hide Trim, CutVersion, CoreOf, DotSeparated, NoLeadingZeros, Split, ToString, WithoutV;
    InnerText(WithoutV(Trim(text)), Parsed(text).value);
  }

  lemma MarkOf(t: string) returns (mark: string)
    requires t != []
    ensures mark in {"", "v", "V"} && t == mark + WithoutV(t)
  {
    mark := if t[0] == 'v' || t[0] == 'V' then [t[0]] else "";
  }

  /** Whatever is read is such a text. */
  lemma TextOfParsed(text: string) returns (left: string, mark: string, right: string)
    requires Parsed(text).Some?
    ensures WellFormed(Parsed(text).value) && Blanks(left) && Blanks(right) && mark in {"", "v", "V"}
    ensures text == left + mark + ToString(Parsed(text).value) + right
  {
    hide *;
    ParsedIsWellFormed(text);
    ParsedInner(text);
    left, right := TrimLeaves(text);
    mark := MarkOf(Trim(text));
    Regroup(left, mark, WithoutV(Trim(text)), right);
  }

  lemma Regroup(a: string, b: string, c: string, d: string)
    ensures a + (b + c) + d == a + b + c + d
  {
  }

  lemma CoreKeeps(parts: seq<string>, pre: string, build: string)
    requires CoreOf(parts, pre, build).Some?
    ensures CoreOf(parts, pre, build).value.pre == pre && CoreOf(parts, pre, build).value.build == build
  {
    hide NumericOf;
  }

  lemma NoneWithout(s: string)
    ensures !CutVersion(s).hasPre ==> CutVersion(s).pre == ""
    ensures !CutVersion(s).hasBuild ==> CutVersion(s).build == ""
  {
    hide Find;
  }

  lemma TextIs(v: Version)
    ensures ToString(v) == CoreText(v) + (if v.pre == [] then "" else "-" + v.pre) + (if v.build == [] then "" else "+" + v.build)
  {
    hide Digits;
  }

  const LETTERS: string := "abcdefghijklmnopqrstuvwxyz"
  const CAPITALS: string := "ABCDEFGHIJKLMNOPQRSTUVWXYZ"
  const DIGITS: string := "0123456789"

  lemma LettersAre(c: char)
    ensures c in LETTERS <==> 'a' <= c <= 'z'
  {
    var k := c as int - 'a' as int;
    assert 0 <= k < 26 ==> LETTERS[k] == c;
  }

  lemma CapitalsAre(c: char)
    ensures c in CAPITALS <==> 'A' <= c <= 'Z'
  {
    var k := c as int - 'A' as int;
    assert 0 <= k < 26 ==> CAPITALS[k] == c;
  }

  lemma CharsAre(c: char)
    ensures IdentifierChar(c) <==> c in LETTERS || c in CAPITALS || c in DIGITS || c == '-'
  {
    hide LETTERS, CAPITALS;
    LettersAre(c);
    CapitalsAre(c);
    DigitsAre(c);
  }

  /** Which versions there are: three numbers of at most nine digits; identifiers of letters, digits and hyphens,
      none of them empty; and no number with a leading zero among those of the pre-release. */
  lemma WellFormedMeans(v: Version, pre: seq<string>, build: seq<string>)
    requires pre != [] && build != [] && v.pre == Join(pre, '.') && v.build == Join(build, '.')
    requires (forall i :: 0 <= i < |pre| ==> '.' !in pre[i]) && forall i :: 0 <= i < |build| ==> '.' !in build[i]
    ensures WellFormed(v) <==>
      && v.major <= 999999999 && v.minor <= 999999999 && v.patch <= 999999999
      && (v.pre == "" || forall i :: 0 <= i < |pre| ==> pre[i] != "" && OfIdentifierChars(pre[i]))
      && (v.pre == "" || forall i :: 0 <= i < |pre| ==> !(pre[i] != "0" && pre[i] != "" && pre[i][0] == '0' && OfDigits(pre[i])))
      && (v.build == "" || forall i :: 0 <= i < |build| ==> build[i] != "" && OfIdentifierChars(build[i]))
  {
    hide Split, Join, Identifier, LeadingZero, OfDigits, OfIdentifierChars;
    SplitOfJoin(pre, '.');
    SplitOfJoin(build, '.');
    forall s: string
      ensures Identifier(s) <==> s != "" && OfIdentifierChars(s)
      ensures LeadingZero(s) <==> s != "0" && s != "" && s[0] == '0' && OfDigits(s)
    {
      IdentifierIs(s);
    }
  }

  predicate OfDigits(s: string) {
    forall i :: 0 <= i < |s| ==> s[i] in "0123456789"
  }

  predicate OfIdentifierChars(s: string) {
    forall i :: 0 <= i < |s| ==> s[i] in LETTERS || s[i] in CAPITALS || s[i] in DIGITS || s[i] == '-'
  }

  lemma IdentifierIs(s: string)
    ensures Identifier(s) <==> s != "" && OfIdentifierChars(s)
    ensures LeadingZero(s) <==> s != "0" && s != "" && s[0] == '0' && OfDigits(s)
  {
    forall i | 0 <= i < |s|
      ensures IdentifierChar(s[i]) <==> s[i] in LETTERS || s[i] in CAPITALS || s[i] in DIGITS || s[i] == '-'
      ensures Digit(s[i]) <==> s[i] in "0123456789"
    {
      CharsAre(s[i]);
      DigitsAre(s[i]);
    }
  }

  /** A known text. */
  lemma KnownText()
    ensures ToString(Version(1, 20, 3, "rc.1", "b5")) == "1.20.3-rc.1+b5"
  {
    assert Digits(1) == "1" && Digits(3) == "3" && Digits(2) == "2" && Digits(20) == Digits(2) + "0";
    assert "1" + "." + "20" + "." + "3" + ("-" + "rc.1") + ("+" + "b5") == "1.20.3-rc.1+b5";
  }
}
