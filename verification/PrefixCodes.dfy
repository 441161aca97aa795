/** Prefix codes as bit strings: Kraft's inequality for them, and what a table made from the counts of a message
    means for that message. */
module PrefixCodes {
  import opened Bits
  import opened Canonical
  import opened Sums
  import opened RadixSort
  import opened RankedSymbols
  import opened HuffmanDepth
  import opened HuffmanTable

  // ----- Kraft's inequality

  /** Neither begins the other. */
  predicate Apart(a: Stream, b: Stream) {
    !(a <= b) && !(b <= a)
  }

  predicate AllApart(cs: seq<Stream>) {
    forall i, j :: 0 <= i < j < |cs| ==> Apart(cs[i], cs[j])
  }

  predicate NoLonger(cs: seq<Stream>, m: nat) {
    forall i :: 0 <= i < |cs| ==> |cs[i]| <= m
  }

  /** How many strings of `m` bits begin with one of these, counted for each of them. */
  function Room(cs: seq<Stream>, m: nat): nat
    requires NoLonger(cs, m)
  {
    if cs == [] then 0 else Room(cs[..|cs| - 1], m) + Pow2(m - |cs[|cs| - 1]|)
  }

  /** What follows the bit `b` in those that begin with it. */
  function Tails(cs: seq<Stream>, b: bool): seq<Stream> {
    if cs == [] then []
    else
      var c := cs[|cs| - 1];
      Tails(cs[..|cs| - 1], b) + if c != [] && c[0] == b then [c[1..]] else []
  }

  lemma {:induction false} TailsIn(cs: seq<Stream>, b: bool, x: Stream)
    requires x in Tails(cs, b)
    ensures [b] + x in cs
    decreases |cs|
  {
    var n := |cs| - 1;
    if x in Tails(cs[..n], b) {
      TailsIn(cs[..n], b, x);
    } else {
      assert cs[n] == [b] + x;
    }
  }

  lemma {:induction false} TailsNoLonger(cs: seq<Stream>, b: bool, m: nat)
    requires NoLonger(cs, m) && m > 0
    ensures NoLonger(Tails(cs, b), m - 1)
    decreases |cs|
  {
    if cs != [] {
      TailsNoLonger(cs[..|cs| - 1], b, m);
    }
  }

  lemma ApartTails(a: Stream, b: Stream, x: bool)
    ensures Apart([x] + a, [x] + b) <==> Apart(a, b)
  {
    var s, t := [x] + a, [x] + b;
    if |a| <= |b| {
      assert s == t[..|s|] <==> a == b[..|a|] by {
        assert t[..|s|] == [x] + b[..|a|];
        assert s[1..] == a && t[..|s|][1..] == b[..|a|];
      }
    }
    if |b| <= |a| {
      assert t == s[..|t|] <==> b == a[..|b|] by {
        assert s[..|t|] == [x] + a[..|b|];
        assert t[1..] == b && s[..|t|][1..] == a[..|b|];
      }
    }
  }

  lemma {:induction false} TailsApart(cs: seq<Stream>, b: bool)
    requires AllApart(cs)
    ensures AllApart(Tails(cs, b))
    decreases |cs|
  {
    if cs != [] {
      hide Apart;
      var n := |cs| - 1;
      var front, c := Tails(cs[..n], b), cs[n];
      TailsApart(cs[..n], b);
      if c != [] && c[0] == b {
        forall i | 0 <= i < |front|
          ensures Apart(front[i], c[1..])
        {
          TailsIn(cs[..n], b, front[i]);
          ApartTails(front[i], c[1..], b);
          assert c == [b] + c[1..];
        }
      }
    }
  }

  lemma TailsSnoc(cs: seq<Stream>, c: Stream)
    requires c != []
    ensures Tails(cs + [c], c[0]) == Tails(cs, c[0]) + [c[1..]] && Tails(cs + [c], !c[0]) == Tails(cs, !c[0])
  {
    assert (cs + [c])[..|cs|] == cs;
  }

  lemma {:induction false} TailsRoom(cs: seq<Stream>, m: nat)
    requires NoLonger(cs, m) && m > 0 && forall i :: 0 <= i < |cs| ==> cs[i] != []
    ensures NoLonger(Tails(cs, false), m - 1) && NoLonger(Tails(cs, true), m - 1)
    ensures Room(cs, m) == Room(Tails(cs, false), m - 1) + Room(Tails(cs, true), m - 1)
    decreases |cs|
  {
    TailsNoLonger(cs, false, m);
    TailsNoLonger(cs, true, m);
    if cs != [] {
      var n := |cs| - 1;
      var front, c := cs[..n], cs[n];
      assert cs == front + [c];
      TailsRoom(front, m);
      TailsSnoc(front, c);
      OneMore(front, c, m);
      OneMore(Tails(front, c[0]), c[1..], m - 1);
      hide Pow2, Room, Tails;
    }
  }

  lemma OneMore(cs: seq<Stream>, c: Stream, m: nat)
    requires NoLonger(cs, m) && |c| <= m
    ensures NoLonger(cs + [c], m) && Room(cs + [c], m) == Room(cs, m) + Pow2(m - |c|)
  {
    assert (cs + [c])[..|cs|] == cs;
  }

  /** The empty string begins every other. */
  lemma EmptyIsAlone(cs: seq<Stream>, i: nat)
    requires i < |cs| && cs[i] == []
    ensures AllApart(cs) ==> |cs| == 1
  {
    if |cs| > 1 {
      var j := if i == 0 then 1 else 0;
      assert cs[i] <= cs[j];
      assert !Apart(cs[if i < j then i else j], cs[if i < j then j else i]);
    }
  }

  /** Kraft's inequality: bit strings none of which begins another leave room for each other. */
  lemma {:induction false} KraftInequality(cs: seq<Stream>, m: nat)
    requires AllApart(cs) && NoLonger(cs, m)
    ensures Room(cs, m) <= Pow2(m)
    decreases m
  {
    if [] in cs {
      var i :| 0 <= i < |cs| && cs[i] == [];
      EmptyIsAlone(cs, i);
      assert cs[..0] == [];
    } else if cs != [] {
      assert |cs[0]| <= m && cs[0] != [];
      TailsRoom(cs, m);
      TailsApart(cs, false);
      TailsApart(cs, true);
      KraftInequality(Tails(cs, false), m - 1);
      KraftInequality(Tails(cs, true), m - 1);
    }
  }

  // ----- messages

  predicate Over(m: seq<nat>, n: nat) {
    forall k :: 0 <= k < |m| ==> m[k] < n
  }

  /** The message with each symbol replaced by its code. */
  function Encoded(m: seq<nat>, codes: seq<Stream>): Stream
    requires Over(m, |codes|)
  {
    if m == [] then [] else Encoded(m[..|m| - 1], codes) + codes[m[|m| - 1]]
  }

  function CountsOf(m: seq<nat>, n: nat): (c: seq<nat>)
    ensures |c| == n && forall s :: 0 <= s < n ==> c[s] == multiset(m)[s]
  {
    seq(n, s requires 0 <= s < n => multiset(m)[s])
  }

  function Lengths(codes: seq<Stream>): (l: seq<nat>)
    ensures |l| == |codes| && forall s :: 0 <= s < |codes| ==> l[s] == |codes[s]|
  {
    seq(|codes|, s requires 0 <= s < |codes| => |codes[s]|)
  }

  /** The codes of a table; unused symbols have empty ones. */
  function TableCodes(sizes: Sizes): (c: seq<Stream>)
    ensures |c| == |sizes| && forall s :: 0 <= s < |sizes| ==> c[s] == SymbolBits(sizes, s)
  {
    seq(|sizes|, s requires 0 <= s < |sizes| => SymbolBits(sizes, s))
  }

  lemma {:induction false} OneMoreCounted(w: seq<nat>, l: seq<nat>, i: nat)
    requires |w| == |l| && i < |w|
    ensures Cost(w[i := w[i] + 1], l) == Cost(w, l) + l[i]
    ensures Sum(w[i := w[i] + 1]) == Sum(w) + 1
    decreases |w|
  {
    var v := w[i := w[i] + 1];
    if i == 0 {
      assert v[1..] == w[1..];
      assert (w[0] + 1) * l[0] == w[0] * l[0] + l[0];
    } else {
      assert v[1..] == w[1..][i - 1 := w[1..][i - 1] + 1];
      OneMoreCounted(w[1..], l[1..], i - 1);
    }
  }

  lemma {:induction false} NoneCounted(w: seq<nat>, l: seq<nat>)
    requires |w| == |l| && forall i :: 0 <= i < |w| ==> w[i] == 0
    ensures Cost(w, l) == Sum(w) == 0
    decreases |w|
  {
    if w != [] {
      NoneCounted(w[1..], l[1..]);
    }
  }

  /** The cost of a choice of lengths is the length of the message; the counts sum to its number of symbols. */
  lemma {:induction false} EncodedLength(m: seq<nat>, codes: seq<Stream>)
    requires Over(m, |codes|)
    ensures |Encoded(m, codes)| == Cost(CountsOf(m, |codes|), Lengths(codes)) && |m| == Sum(CountsOf(m, |codes|))
    decreases |m|
  {
    var w, l := CountsOf(m, |codes|), Lengths(codes);
    if m == [] {
      NoneCounted(w, l);
    } else {
      var n := |m| - 1;
      var v, s := CountsOf(m[..n], |codes|), m[n];
      EncodedLength(m[..n], codes);
      assert m == m[..n] + [s];
      assert w == v[s := v[s] + 1];
      OneMoreCounted(v, l, s);
    }
  }

  // ----- no prefix code does better

  function CodesOf(used: seq<SymFreq>, codes: seq<Stream>): (cs: seq<Stream>)
    requires forall j :: 0 <= j < |used| ==> used[j].sym < |codes|
    ensures |cs| == |used| && forall j :: 0 <= j < |used| ==> cs[j] == codes[used[j].sym]
  {
    seq(|used|, j requires 0 <= j < |used| => codes[used[j].sym])
  }

  lemma {:induction false} RoomIsSum(used: seq<SymFreq>, codes: seq<Stream>, m: nat)
    requires (forall j :: 0 <= j < |used| ==> used[j].sym < |codes|) && NoLonger(codes, m)
    ensures NoLonger(CodesOf(used, codes), m) && SumBy(used, KraftOf(Lengths(codes), m)) == Room(CodesOf(used, codes), m)
    decreases |used|
  {
    if used != [] {
      hide Pow2;
      var n := |used| - 1;
      RoomIsSum(used[..n], codes, m);
      assert CodesOf(used, codes)[..n] == CodesOf(used[..n], codes);
    }
  }

  lemma {:induction false} SomeLength(codes: seq<Stream>) returns (m: nat)
    ensures NoLonger(codes, m)
    decreases |codes|
  {
    m := 0;
    if codes != [] {
      var n := |codes| - 1;
      m := SomeLength(codes[..n]);
      assert forall i :: 0 <= i < n ==> codes[i] == codes[..n][i];
      m := if |codes[n]| > m then |codes[n]| else m;
    }
  }

  /** Codes that stay apart on the symbols of a message are a code for its counts. */
  lemma ApartIsCode(m: seq<nat>, codes: seq<Stream>) returns (longest: nat)
    requires Over(m, |codes|) && forall i, j :: i in m && j in m && i != j ==> Apart(codes[i], codes[j])
    ensures IsCodeFor(CountsOf(m, |codes|), Lengths(codes), longest)
  {
    hide Apart, Room, SumBy, KraftOf;
    var count := CountsOf(m, |codes|);
    var used := UsedSyms(count);
    longest := SomeLength(codes);
    var cs := CodesOf(used, codes);
    forall i, j | 0 <= i < j < |cs|
      ensures Apart(cs[i], cs[j])
    {
      assert count[used[i].sym] > 0 && count[used[j].sym] > 0;
      assert used[i].sym in multiset(m) && used[j].sym in multiset(m);
    }
    RoomIsSum(used, codes, longest);
    KraftInequality(cs, longest);
  }

  lemma TwoUsed(m: seq<nat>, n: nat, a: nat, b: nat)
    requires Over(m, n) && a in m && b in m && a != b
    ensures |UsedSyms(CountsOf(m, n))| >= 2
  {
    hide UsedSyms;
    var count := CountsOf(m, n);
    assert a in multiset(m) && b in multiset(m);
    UsedSymsComplete(count, a);
    UsedSymsComplete(count, b);
    var u := UsedSyms(count);
    var i :| 0 <= i < |u| && u[i] == SymFreq(count[a], a);
    var j :| 0 <= j < |u| && u[j] == SymFreq(count[b], b);
    assert i != j;
  }

  /** A message of two symbols or more and the table made from its counts: with fewer symbols than the limit
      matters for, no bit strings that stay apart write the message in fewer bits; with the limit of 15 and up to
      288 symbols never in 60097 bits fewer. */
  lemma NoShorterCode(m: seq<nat>, sizes: Sizes, limit: nat, codes: seq<Stream>, a: nat, b: nat)
    requires |codes| == |sizes| && Over(m, |sizes|) && GoodTable(CountsOf(m, |sizes|), sizes, limit)
    requires a in m && b in m && a != b
    requires forall i, j :: i in m && j in m && i != j ==> Apart(codes[i], codes[j])
    ensures |m| < Fib(limit + 3) ==> |Encoded(m, TableCodes(sizes))| <= |Encoded(m, codes)|
    ensures limit == 15 && |sizes| <= 288 && |m| < 0x1_0000 ==> |Encoded(m, TableCodes(sizes))| <= |Encoded(m, codes)| + 60096
  {
    hide Fib, Apart, Encoded, IsCodeFor, UsedSyms, IsTable, Complete;
    var count := CountsOf(m, |sizes|);
    TwoUsed(m, |sizes|, a, b);
    var longest := ApartIsCode(m, codes);
    EncodedLength(m, codes);
    EncodedLength(m, TableCodes(sizes));
    assert Lengths(TableCodes(sizes)) == sizes;
    UsedNoMore(count);
  }

  lemma UsedNoMore(count: seq<nat>)
    ensures |UsedSyms(count)| <= |count|
    ensures |count| <= 288 ==> Extra(|UsedSyms(count)|) <= 60096
  {
  }

  /** From how many symbols on the limits matter: 2584 for the limit of 15, and 55 for that of 7. */
  lemma FewSymbols()
    ensures Fib(18) == 2584 && Fib(10) == 55
  {
    FibOf25();
    assert Fib(9) == 34 && Fib(10) == 55;
    assert Fib(11) == 89 && Fib(12) == 144 && Fib(13) == 233 && Fib(14) == 377 && Fib(15) == 610;
    assert Fib(16) == 987 && Fib(17) == 1597;
  }
}
