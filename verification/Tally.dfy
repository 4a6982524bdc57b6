/** Sums over sequences: how the protocol proofs count goroutines by phase and weigh queues. */
module Tally {

  function Sum<T>(s: seq<T>, f: T -> nat): nat {
    if s == [] then 0 else Sum(s[..|s| - 1], f) + f(s[|s| - 1])
  }

  lemma SumAppend<T>(s: seq<T>, x: T, f: T -> nat)
    ensures Sum(s + [x], f) == Sum(s, f) + f(x)
  {
    assert (s + [x])[..|s|] == s;
  }

  lemma {:induction false} SumUpdate<T>(s: seq<T>, i: nat, x: T, f: T -> nat)
    requires i < |s|
    ensures Sum(s[i := x], f) + f(s[i]) == Sum(s, f) + f(x)
  {
    var n := |s| - 1;
    if i < n {
      assert s[i := x][..n] == s[..n][i := x];
      SumUpdate(s[..n], i, x, f);
    } else {
      assert s[i := x][..n] == s[..n];
    }
  }

  lemma {:induction false} SumTail<T>(s: seq<T>, f: T -> nat)
    requires s != []
    ensures Sum(s, f) == f(s[0]) + Sum(s[1..], f)
  {
    if 1 < |s| {
      SumTail(s[..|s| - 1], f);
      assert s[..|s| - 1][1..] == s[1..][..|s| - 2];
    }
  }

  lemma {:induction false} SumBounds<T>(s: seq<T>, f: T -> nat, g: T -> nat)
    requires forall x :: x in s ==> f(x) <= g(x)
    ensures Sum(s, f) <= Sum(s, g)
  {
    if s != [] {
      SumBounds(s[..|s| - 1], f, g);
    }
  }

  lemma {:induction false} SumPositive<T>(s: seq<T>, i: nat, f: T -> nat)
    requires i < |s|
    ensures f(s[i]) <= Sum(s, f)
  {
    if i < |s| - 1 {
      SumPositive(s[..|s| - 1], i, f);
    }
  }

  /** Replacing one element while all the weights go down: the other elements can only get lighter. */
  lemma {:induction false} SumReplace<T>(s: seq<T>, i: nat, x: T, f: T -> nat, g: T -> nat)
    requires i < |s| && forall y :: y in s ==> g(y) <= f(y)
    ensures Sum(s[i := x], g) + f(s[i]) <= Sum(s, f) + g(x)
  {
    var n := |s| - 1;
    if i < n {
      assert s[i := x][..n] == s[..n][i := x];
      SumReplace(s[..n], i, x, f, g);
    } else {
      assert s[i := x][..n] == s[..n];
      SumBounds(s[..n], g, f);
    }
  }
}
