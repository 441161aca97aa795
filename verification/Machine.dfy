/** Runs of a deterministic step function that may get stuck. */
module Machine {
  import opened Canonical

  /** The state after `k` steps of `f`, if none of them got stuck. */
  ghost function Run<S>(f: S -> Option<S>, a: S, k: nat): Option<S>
    decreases k
  {
    if k == 0 then Some(a)
    else match f(a)
      case Some(b) => Run(f, b, k - 1)
      case None => None
  }

  ghost predicate Reaches<S>(f: S -> Option<S>, a: S, b: S) {
    exists k: nat :: Run(f, a, k) == Some(b)
  }

  lemma {:induction false} RunAdd<S>(f: S -> Option<S>, a: S, j: nat, k: nat)
    requires Run(f, a, j).Some?
    ensures Run(f, a, j + k) == Run(f, Run(f, a, j).value, k)
    decreases j
  {
    if j > 0 {
      RunAdd(f, f(a).value, j - 1, k);
    }
  }

  lemma ReachesTrans<S>(f: S -> Option<S>, a: S, b: S, c: S)
    requires Reaches(f, a, b) && Reaches(f, b, c)
    ensures Reaches(f, a, c)
  {
    var j: nat :| Run(f, a, j) == Some(b);
    var k: nat :| Run(f, b, k) == Some(c);
    RunAdd(f, a, j, k);
  }

  lemma ReachesSelf<S>(f: S -> Option<S>, a: S)
    ensures Reaches(f, a, a)
  {
    assert Run(f, a, 0) == Some(a);
  }

  lemma ReachesStep<S>(f: S -> Option<S>, a: S, b: S)
    requires f(a) == Some(b)
    ensures Reaches(f, a, b)
  {
    assert Run(f, b, 0) == Some(b);
    assert Run(f, a, 1) == Some(b);
  }

  lemma {:induction false} FixedStays<S>(f: S -> Option<S>, a: S, k: nat)
    requires f(a) == Some(a)
    ensures Run(f, a, k) == Some(a)
    decreases k
  {
    if k > 0 {
      FixedStays(f, a, k - 1);
    }
  }

  /** Two fixed points reached from one state are the same. */
  lemma FixedUnique<S>(f: S -> Option<S>, a: S, b: S, c: S)
    requires Reaches(f, a, b) && Reaches(f, a, c) && f(b) == Some(b) && f(c) == Some(c)
    ensures b == c
  {
    var j: nat :| Run(f, a, j) == Some(b);
    var k: nat :| Run(f, a, k) == Some(c);
    if j <= k {
      RunAdd(f, a, j, k - j);
      FixedStays(f, b, k - j);
    } else {
      RunAdd(f, a, k, j - k);
      FixedStays(f, c, j - k);
    }
  }

  /** From a state that reaches a fixed point, no stuck state can be reached. */
  lemma FixedNotStuck<S>(f: S -> Option<S>, a: S, b: S, c: S)
    requires Reaches(f, a, b) && f(b) == Some(b) && Reaches(f, a, c)
    ensures f(c).Some?
  {
    var j: nat :| Run(f, a, j) == Some(b);
    var k: nat :| Run(f, a, k) == Some(c);
    if j <= k {
      RunAdd(f, a, j, k - j);
      FixedStays(f, b, k - j);
    } else {
      RunAdd(f, a, k, j - k);
    }
  }
}
