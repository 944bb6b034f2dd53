/**
 Keeping the members of a list that pass a test, each once, by first
 occurrence: what order-preserving deduplication means, that it determines its
 result, and that doing it twice changes nothing.
 */
module Occurrences {

  /** Where `x` first occurs, or the length of the list. */
  function FirstIndex(list: seq<string>, x: string): (k: nat)
    ensures k <= |list| && (k < |list| <==> x in list) && (k < |list| ==> list[k] == x) && x !in list[..k]
  {
    if list == [] || list[0] == x then 0 else 1 + FirstIndex(list[1..], x)
  }

  /** `kept` holds the members of `list` that pass, each once, by first occurrence.
      For a given list and test there is only one such sequence. */
  ghost predicate FirstOccurrences(kept: seq<string>, list: seq<string>, pass: string -> bool) {
    && (forall x :: x in kept <==> x in list && pass(x))
    && (forall i, j :: 0 <= i < j < |kept| ==> FirstIndex(list, kept[i]) < FirstIndex(list, kept[j]))
  }

  lemma {:induction false} FirstIndexAppend(list: seq<string>, last: string, x: string)
    ensures x in list ==> FirstIndex(list + [last], x) == FirstIndex(list, x)
    ensures x !in list && x == last ==> FirstIndex(list + [last], x) == |list|
  {
    var k := FirstIndex(list + [last], x);
    assert x in list ==> x in (list + [last])[..|list|];
  }

  lemma OccurrencesAppend(kept: seq<string>, list: seq<string>, last: string, pass: string -> bool)
    requires FirstOccurrences(kept, list, pass)
    ensures FirstOccurrences(if last in list || !pass(last) then kept else kept + [last], list + [last], pass)
  {
    forall x ensures x in list ==> FirstIndex(list + [last], x) == FirstIndex(list, x) {
      FirstIndexAppend(list, last, x);
    }
    FirstIndexAppend(list, last, last);
  }

  lemma {:induction false} OccurrencesUnique(a: seq<string>, b: seq<string>, list: seq<string>, pass: string -> bool)
    requires FirstOccurrences(a, list, pass) && FirstOccurrences(b, list, pass)
    ensures a == b
    decreases |a| + |b|
  {
    EmptyTogether(a, b, list, pass);
    if a != [] && b != [] {
      var m, n := |a| - 1, |b| - 1;
      assert a[m] in b && b[n] in a;
      LastAgrees(a, b, list, pass);
      var less := x => pass(x) && x != a[m];
      DropLast(a, list, pass, less);
      DropLast(b, list, pass, less);
      OccurrencesUnique(a[..m], b[..n], list, less);
      assert a == a[..m] + [a[m]] && b == b[..n] + [b[n]];
    }
  }

  lemma EmptyTogether(a: seq<string>, b: seq<string>, list: seq<string>, pass: string -> bool)
    requires FirstOccurrences(a, list, pass) && FirstOccurrences(b, list, pass)
    ensures a == [] <==> b == []
  {
    if a != [] { assert a[0] in b; }
    if b != [] { assert b[0] in a; }
  }

  lemma LastAgrees(a: seq<string>, b: seq<string>, list: seq<string>, pass: string -> bool)
    requires FirstOccurrences(a, list, pass) && FirstOccurrences(b, list, pass) && a != [] && b != []
    ensures a[|a| - 1] == b[|b| - 1]
  {
    var m, n := |a| - 1, |b| - 1;
    assert a[m] in b && b[n] in a;
    var i :| 0 <= i < |b| && b[i] == a[m];
    var j :| 0 <= j < |a| && a[j] == b[n];
    assert FirstIndex(list, b[i]) <= FirstIndex(list, b[n]);
    assert FirstIndex(list, a[j]) <= FirstIndex(list, a[m]);
  }

  lemma DropLast(a: seq<string>, list: seq<string>, pass: string -> bool, less: string -> bool)
    requires FirstOccurrences(a, list, pass) && a != []
    requires forall x :: less(x) <==> pass(x) && x != a[|a| - 1]
    ensures FirstOccurrences(a[..|a| - 1], list, less)
  {
    var m := |a| - 1;
    forall x ensures x in a[..m] <==> x in list && less(x) {
      assert x in a <==> x in a[..m] || x == a[m] by { assert a == a[..m] + [a[m]]; }
      if x in a[..m] {
        var i :| 0 <= i < m && a[i] == x;
        assert FirstIndex(list, a[i]) < FirstIndex(list, a[m]);
      }
    }
  }

  predicate Everything(x: string) {
    true
  }

  function Filter(list: seq<string>, pass: string -> bool): seq<string> {
    if list == [] then []
    else
      var n := |list| - 1;
      Filter(list[..n], pass) + if pass(list[n]) then [list[n]] else []
  }

  lemma {:induction false} FilterKeeps(list: seq<string>, pass: string -> bool, all: seq<string>)
    requires forall i, j :: 0 <= i < j < |list| ==> FirstIndex(all, list[i]) < FirstIndex(all, list[j])
    ensures var kept := Filter(list, pass);
            && (forall x :: x in kept <==> x in list && pass(x))
            && (forall i, j :: 0 <= i < j < |kept| ==> FirstIndex(all, kept[i]) < FirstIndex(all, kept[j]))
  {
    if list != [] {
      var n := |list| - 1;
      FilterKeeps(list[..n], pass, all);
      assert list == list[..n] + [list[n]];
      var front := Filter(list[..n], pass);
      forall i | 0 <= i < |front| ensures FirstIndex(all, front[i]) < FirstIndex(all, list[n]) {
        assert front[i] in list[..n];
        var j :| 0 <= j < n && list[j] == front[i];
      }
    }
  }

  /** Distinct paths that resolution leaves alone survive a second deduplication. */
  lemma SecondPassChangesNothing(kept: seq<string>, list: seq<string>, pass: string -> bool, out: seq<string>)
    requires FirstOccurrences(kept, list, pass) && FirstOccurrences(out, kept, Everything)
    ensures out == kept
  {
    forall i, j | 0 <= i < j < |kept| ensures FirstIndex(kept, kept[i]) < FirstIndex(kept, kept[j]) {
      SoleIndex(kept, list, pass, i);
      SoleIndex(kept, list, pass, j);
    }
    OccurrencesUnique(out, kept, kept, Everything);
  }

  lemma {:induction false} SoleIndex(kept: seq<string>, list: seq<string>, pass: string -> bool, i: nat)
    requires FirstOccurrences(kept, list, pass) && i < |kept|
    ensures FirstIndex(kept, kept[i]) == i
  {
    var k := FirstIndex(kept, kept[i]);
    assert kept[i] in kept[..i + 1];
    assert k <= i;
    assert kept[k] == kept[i];
  }
}
