/** Sums over sequences, for the counting arguments of the two races. */
module Counting {

  function Sum<T>(s: seq<T>, f: T -> nat): nat {
    if s == [] then 0 else f(s[0]) + Sum(s[1..], f)
  }

  lemma {:induction false} SumUpdate<T>(s: seq<T>, f: T -> nat, i: nat, x: T)
    requires i < |s|
    ensures Sum(s[i := x], f) == Sum(s, f) - f(s[i]) + f(x)
  {
    if i == 0 {
      assert s[i := x][1..] == s[1..];
    } else {
      assert s[i := x][1..] == s[1..][i - 1 := x];
      SumUpdate(s[1..], f, i - 1, x);
    }
  }

  lemma {:induction false} SumAtLeast<T>(s: seq<T>, f: T -> nat, k: nat)
    requires k <= |s| && forall i :: 0 <= i < k ==> 1 <= f(s[i])
    ensures k <= Sum(s, f)
  {
    if k > 0 {
      SumAtLeast(s[1..], f, k - 1);
    }
  }

  lemma {:induction false} SumAtMost<T>(s: seq<T>, f: T -> nat, k: nat)
    requires k <= |s| && forall x :: f(x) <= 1
    requires forall i :: k <= i < |s| ==> f(s[i]) == 0
    ensures Sum(s, f) <= k
  {
    if s != [] {
      SumAtMost(s[1..], f, if k == 0 then 0 else k - 1);
    }
  }

  lemma {:induction false} SumMissing<T>(s: seq<T>, f: T -> nat, i: nat)
    requires i < |s| && f(s[i]) == 0 && forall x :: f(x) <= 1
    ensures Sum(s, f) < |s|
  {
    if i == 0 {
      SumAtMost(s[1..], f, |s| - 1);
    } else {
      SumMissing(s[1..], f, i - 1);
    }
  }

  lemma {:induction false} SumCovers<T>(s: seq<T>, f: T -> nat, i: nat)
    requires i < |s|
    ensures f(s[i]) <= Sum(s, f)
  {
    if i > 0 {
      SumCovers(s[1..], f, i - 1);
    }
  }

  lemma {:induction false} SumConstant<T>(n: nat, f: T -> nat, x: T)
    ensures Sum(seq(n, _ => x), f) == n * f(x)
  {
    if n > 0 {
      assert seq(n, _ => x)[1..] == seq(n - 1, _ => x);
      SumConstant(n - 1, f, x);
    }
  }
}
