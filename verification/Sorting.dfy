/** A stable sort, standing for the list sort of the modelled program. */
module Sorting {

  ghost predicate IsTotalOrder<T(!new)>(leq: (T, T) -> bool) {
    && (forall x, y :: leq(x, y) || leq(y, x))
    && (forall x, y, z :: leq(x, y) && leq(y, z) ==> leq(x, z))
  }

  ghost predicate IsSorted<T>(xs: seq<T>, leq: (T, T) -> bool) {
    forall i, j :: 0 <= i < j < |xs| ==> leq(xs[i], xs[j])
  }

  /** Puts x in front of the first element it does not exceed. */
  function Insert<T>(x: T, xs: seq<T>, leq: (T, T) -> bool): (r: seq<T>)
    ensures multiset(r) == multiset{x} + multiset(xs)
  {
    if xs == [] then [x]
    else if leq(x, xs[0]) then [x] + xs
    else
      assert xs == [xs[0]] + xs[1..];
      [xs[0]] + Insert(x, xs[1..], leq)
  }

  function Sort<T>(xs: seq<T>, leq: (T, T) -> bool): (r: seq<T>)
    ensures multiset(r) == multiset(xs)
  {
    if xs == [] then []
    else
      assert xs == [xs[0]] + xs[1..];
      Insert(xs[0], Sort(xs[1..], leq), leq)
  }

  lemma SameElements<T>(xs: seq<T>, ys: seq<T>)
    requires multiset(xs) == multiset(ys)
    ensures |xs| == |ys|
    ensures forall x :: x in xs <==> x in ys
  {
    assert |multiset(xs)| == |multiset(ys)|;
    forall x ensures x in xs <==> x in ys {
      assert x in multiset(xs) <==> x in multiset(ys);
    }
  }

  lemma {:induction false} InsertKeepsSorted<T(!new)>(x: T, xs: seq<T>, leq: (T, T) -> bool)
    requires IsTotalOrder(leq) && IsSorted(xs, leq)
    ensures IsSorted(Insert(x, xs, leq), leq)
  {
    if xs != [] && !leq(x, xs[0]) {
      var rest := Insert(x, xs[1..], leq);
      InsertKeepsSorted(x, xs[1..], leq);
      forall y | y in rest ensures leq(xs[0], y) {
        assert y in multiset(rest);
        assert y == x || y in xs[1..];
      }
    }
  }

  lemma {:induction false} SortIsSorted<T(!new)>(xs: seq<T>, leq: (T, T) -> bool)
    requires IsTotalOrder(leq)
    ensures IsSorted(Sort(xs, leq), leq)
  {
    if xs != [] {
      SortIsSorted(xs[1..], leq);
      InsertKeepsSorted(xs[0], Sort(xs[1..], leq), leq);
    }
  }

  /** Where no two different elements are equivalent, a sorted list is determined by its elements. */
  lemma {:induction false} SortedIsUnique<T(!new)>(xs: seq<T>, ys: seq<T>, leq: (T, T) -> bool)
    requires multiset(xs) == multiset(ys) && IsSorted(xs, leq) && IsSorted(ys, leq)
    requires NoTies(xs, leq)
    ensures xs == ys
  {
    hide IsSorted;
    SameElements(xs, ys);
    if xs != [] {
      TailIsSorted(xs, leq);
      TailIsSorted(ys, leq);
      SameHead(xs, ys, leq);
      assert xs == [xs[0]] + xs[1..] && ys == [ys[0]] + ys[1..];
      assert multiset(xs[1..]) == multiset(xs) - multiset{xs[0]};
      assert multiset(ys[1..]) == multiset(ys) - multiset{ys[0]};
      TailHasNoTies(xs, leq);
      SortedIsUnique(xs[1..], ys[1..], leq);
    }
  }

  ghost predicate NoTies<T(!new)>(xs: seq<T>, leq: (T, T) -> bool) {
    forall x, y :: x in xs && y in xs && leq(x, y) && leq(y, x) ==> x == y
  }

  lemma TailIsSorted<T>(xs: seq<T>, leq: (T, T) -> bool)
    requires xs != [] && IsSorted(xs, leq)
    ensures IsSorted(xs[1..], leq)
  {
  }

  lemma TailHasNoTies<T(!new)>(xs: seq<T>, leq: (T, T) -> bool)
    requires xs != [] && NoTies(xs, leq)
    ensures NoTies(xs[1..], leq)
  {
  }

  lemma SameHead<T(!new)>(xs: seq<T>, ys: seq<T>, leq: (T, T) -> bool)
    requires xs != [] && ys != [] && (forall x :: x in xs <==> x in ys)
    requires IsSorted(xs, leq) && IsSorted(ys, leq) && NoTies(xs, leq)
    ensures xs[0] == ys[0]
  {
    assert xs[0] in ys && ys[0] in xs;
    var i :| 0 <= i < |ys| && ys[i] == xs[0];
    var j :| 0 <= j < |xs| && xs[j] == ys[0];
    if i != 0 && j != 0 {
      assert leq(xs[0], xs[j]) && leq(ys[0], ys[i]);
    }
  }

  // ----- Lists without repetition -----

  ghost predicate IsDistinct<T>(xs: seq<T>) {
    forall i, j :: 0 <= i < j < |xs| ==> xs[i] != xs[j]
  }

  lemma {:induction false} DistinctCountsOnce<T>(xs: seq<T>, x: T)
    requires IsDistinct(xs)
    ensures multiset(xs)[x] <= 1
  {
    if xs != [] {
      assert xs == [xs[0]] + xs[1..];
      DistinctCountsOnce(xs[1..], x);
      assert xs[0] !in xs[1..];
      assert xs[0] !in multiset(xs[1..]);
    }
  }

  lemma RepeatedCountsTwice<T>(xs: seq<T>, i: nat, j: nat)
    requires i < j < |xs| && xs[i] == xs[j]
    ensures multiset(xs)[xs[i]] >= 2
  {
    var front, back := xs[..j], xs[j..];
    assert xs == front + back && front[i] == back[0] == xs[i];
    assert multiset(xs) == multiset(front) + multiset(back);
    assert xs[i] in multiset(front) && xs[i] in multiset(back);
  }

  lemma SortKeepsDistinct<T>(xs: seq<T>, leq: (T, T) -> bool)
    requires IsDistinct(xs)
    ensures IsDistinct(Sort(xs, leq))
  {
    var sorted := Sort(xs, leq);
    forall i, j | 0 <= i < j < |sorted| ensures sorted[i] != sorted[j] {
      if sorted[i] == sorted[j] {
        RepeatedCountsTwice(sorted, i, j);
        DistinctCountsOnce(xs, sorted[i]);
      }
    }
  }
}
