/** Sequences, whatever they hold. */
module Seqs {
  function Filter<T>(keep: T -> bool, xs: seq<T>): seq<T> {
    if xs == [] then [] else (if keep(xs[0]) then [xs[0]] else []) + Filter(keep, xs[1..])
  }

  lemma {:induction false} FilterConcat<T>(keep: T -> bool, a: seq<T>, b: seq<T>)
    ensures Filter(keep, a + b) == Filter(keep, a) + Filter(keep, b)
  {
    if a == [] {
      assert a + b == b;
    } else {
      var rest := a[1..];
      FilterConcat(keep, rest, b);
      FilterCons(keep, a[0], rest);
      FilterCons(keep, a[0], rest + b);
      assert a == [a[0]] + rest;
      assert a + b == [a[0]] + (rest + b);
    }
  }

  lemma FilterCons<T>(keep: T -> bool, x: T, xs: seq<T>)
    ensures Filter(keep, [x] + xs) == (if keep(x) then [x] else []) + Filter(keep, xs)
  {
    assert ([x] + xs)[1..] == xs;
  }

  lemma FilterUniform<T>(keep: T -> bool, xs: seq<T>)
    ensures (forall x :: x in xs ==> keep(x)) ==> Filter(keep, xs) == xs
    ensures (forall x :: x in xs ==> !keep(x)) ==> Filter(keep, xs) == []
  {
  }

  lemma FilterMembers<T>(keep: T -> bool, xs: seq<T>)
    ensures forall x :: x in Filter(keep, xs) <==> x in xs && keep(x)
  {
  }

  lemma MapSnoc<T>(all: seq<T>, before: seq<T>, last: T)
    requires |all| == |before| + 1 && all[|before|] == last
    requires forall i :: 0 <= i < |before| ==> all[i] == before[i]
    ensures all == before + [last]
  {
  }

  lemma Regroup<T>(a: seq<T>, b: seq<T>, c: seq<T>)
    ensures a + (b + c) == (a + b) + c
  { }
}
