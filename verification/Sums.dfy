/** Sums of natural numbers over a sequence, and products as sums. */
module Sums {
  function Sum(xs: seq<nat>): nat {
    if xs == [] then 0 else xs[0] + Sum(xs[1..])
  }

  lemma {:induction false} SumConcat(xs: seq<nat>, ys: seq<nat>)
    ensures Sum(xs + ys) == Sum(xs) + Sum(ys)
  {
    if xs == [] {
      assert xs + ys == ys;
    } else {
      assert (xs + ys)[1..] == xs[1..] + ys;
      SumConcat(xs[1..], ys);
    }
  }

  lemma {:induction false} SumUpdate(xs: seq<nat>, i: nat, x: nat)
    requires i < |xs|
    ensures Sum(xs[i := x]) + xs[i] == Sum(xs) + x
  {
    if i > 0 {
      assert xs[i := x][1..] == xs[1..][i - 1 := x];
      SumUpdate(xs[1..], i - 1, x);
    } else {
      assert xs[i := x][1..] == xs[1..];
    }
  }

  lemma {:induction false} SumAtMost(xs: seq<nat>, ys: seq<nat>)
    requires |xs| == |ys| && forall i :: 0 <= i < |xs| ==> xs[i] <= ys[i]
    ensures Sum(xs) <= Sum(ys)
  {
    if xs != [] { SumAtMost(xs[1..], ys[1..]); }
  }

  lemma SumBelow(xs: seq<nat>, ys: seq<nat>, i: nat)
    requires i < |xs| == |ys| && forall j :: 0 <= j < |xs| ==> xs[j] <= ys[j]
    ensures Sum(xs) + (ys[i] - xs[i]) <= Sum(ys)
  {
    SumUpdate(xs, i, ys[i]);
    SumAtMost(xs[i := ys[i]], ys);
  }

  lemma {:induction false} SumBounded(xs: seq<nat>, bound: nat)
    requires forall i :: 0 <= i < |xs| ==> xs[i] <= bound
    ensures Sum(xs) <= |xs| * bound
  {
    if xs != [] {
      SumBounded(xs[1..], bound);
      assert |xs| * bound == (|xs| - 1) * bound + bound;
    }
  }

  function Times(n: nat, d: nat): nat {
    if n == 0 then 0 else d + Times(n - 1, d)
  }

  lemma {:induction false} TimesIsProduct(n: nat, d: nat)
    ensures Times(n, d) == n * d
  {
    if n > 0 {
      TimesIsProduct(n - 1, d);
      assert n * d == (n - 1) * d + d;
    }
  }

  lemma {:induction false} SumZero(xs: seq<nat>)
    requires forall i :: 0 <= i < |xs| ==> xs[i] == 0
    ensures Sum(xs) == 0
  {
    if xs != [] { SumZero(xs[1..]); }
  }

  /** One summand is all there is. */
  lemma SumSingle(xs: seq<nat>, k: nat)
    requires k < |xs| && forall i :: 0 <= i < |xs| && i != k ==> xs[i] == 0
    ensures Sum(xs) == xs[k]
  {
    SumUpdate(xs, k, 0);
    SumZero(xs[k := 0]);
  }
}
