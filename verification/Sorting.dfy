/**
 `Array.prototype.sort` with a comparison function: stable insertion, sorted and
 a permutation whenever the comparison is a total preorder.
 */
module Sorting {
  predicate Chain<T>(cmp: (T, T) -> int, x: T, y: T, z: T) {
    cmp(x, y) <= 0 && cmp(y, z) <= 0
  }

  predicate Opposed<T>(cmp: (T, T) -> int, x: T, y: T) {
    cmp(x, y) < 0 <==> cmp(y, x) > 0
  }

  ghost predicate Preorder<T(!new)>(cmp: (T, T) -> int) {
    && (forall x, y :: Opposed(cmp, x, y))
    && (forall x, y, z :: Chain(cmp, x, y, z) ==> cmp(x, z) <= 0)
  }

  function Last<T>(xs: seq<T>): T
    requires xs != []
  {
    xs[|xs| - 1]
  }

  function Insert<T>(cmp: (T, T) -> int, x: T, sorted: seq<T>): seq<T> {
    if sorted == [] then [x]
    else if cmp(Last(sorted), x) <= 0 then sorted + [x]
    else Insert(cmp, x, sorted[..|sorted| - 1]) + [Last(sorted)]
  }

  function Sort<T>(cmp: (T, T) -> int, xs: seq<T>): seq<T> {
    if xs == [] then [] else Insert(cmp, Last(xs), Sort(cmp, xs[..|xs| - 1]))
  }

  predicate Sorted<T>(cmp: (T, T) -> int, xs: seq<T>) {
    forall i, j :: 0 <= i < j < |xs| ==> cmp(xs[i], xs[j]) <= 0
  }

  lemma SortedSnoc<T>(cmp: (T, T) -> int, xs: seq<T>, x: T)
    requires Sorted(cmp, xs) && forall y :: y in xs ==> cmp(y, x) <= 0
    ensures Sorted(cmp, xs + [x])
  {
  }

  lemma {:induction false} InsertSorts<T(!new)>(cmp: (T, T) -> int, x: T, sorted: seq<T>)
    requires Preorder(cmp) && Sorted(cmp, sorted)
    ensures Sorted(cmp, Insert(cmp, x, sorted))
    ensures multiset(Insert(cmp, x, sorted)) == multiset(sorted) + multiset{x}
  {
    if sorted != [] {
      var front, last := sorted[..|sorted| - 1], Last(sorted);
      assert sorted == front + [last];
      if cmp(last, x) <= 0 {
        forall y | y in sorted ensures cmp(y, x) <= 0 {
          assert y == last || Chain(cmp, y, last, x);
        }
        SortedSnoc(cmp, sorted, x);
      } else {
        InsertSorts(cmp, x, front);
        var inserted := Insert(cmp, x, front);
        assert Opposed(cmp, x, last);
        forall y | y in inserted ensures cmp(y, last) <= 0 {
          assert y in multiset(inserted);
        }
        SortedSnoc(cmp, inserted, last);
      }
    }
  }

  lemma {:induction false} SortSorts<T(!new)>(cmp: (T, T) -> int, xs: seq<T>)
    requires Preorder(cmp)
    ensures Sorted(cmp, Sort(cmp, xs)) && multiset(Sort(cmp, xs)) == multiset(xs)
  {
    if xs != [] {
      var front, last := xs[..|xs| - 1], Last(xs);
      SortSorts(cmp, front);
      InsertSorts(cmp, last, Sort(cmp, front));
      assert xs == front + [last];
    }
  }

  lemma {:induction false} LastIsGreatest<T(!new)>(cmp: (T, T) -> int, xs: seq<T>)
    requires Preorder(cmp) && xs != []
    ensures Sort(cmp, xs) != []
    ensures Last(Sort(cmp, xs)) in xs
    ensures forall x :: x in xs ==> cmp(x, Last(Sort(cmp, xs))) <= 0
  {
    SortSorts(cmp, xs);
    var sorted := Sort(cmp, xs);
    assert |multiset(sorted)| == |multiset(xs)|;
    assert Last(sorted) in multiset(xs);
    assert Opposed(cmp, Last(sorted), Last(sorted));
    forall x | x in xs ensures cmp(x, Last(sorted)) <= 0 {
      assert x in multiset(sorted);
    }
  }
}
