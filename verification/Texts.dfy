/**
 String operations the JavaScript and Rust sources lean on: splitting and
 joining on a separator, and lexicographic comparison.
 */
module Texts {
  // ----- split and join

  function IndexOf(text: string, c: char): (k: nat)
    ensures k <= |text| && (forall j :: 0 <= j < k ==> text[j] != c) && (k < |text| ==> text[k] == c)
  {
    if text == "" || text[0] == c then 0 else 1 + IndexOf(text[1..], c)
  }

  /** `text.split(sep)`. */
  function Split(text: string, sep: char): (parts: seq<string>)
    ensures |parts| >= 1
    decreases |text|
  {
    var k := IndexOf(text, sep);
    if k == |text| then [text] else [text[..k]] + Split(text[k + 1..], sep)
  }

  /** `parts.join(sep)`. */
  function Join(parts: seq<string>, sep: char): string {
    if parts == [] then ""
    else if |parts| == 1 then parts[0]
    else parts[0] + [sep] + Join(parts[1..], sep)
  }

  predicate Free(parts: seq<string>, sep: char) {
    forall i :: 0 <= i < |parts| ==> sep !in parts[i]
  }

  lemma {:induction false} SplitIsFree(text: string, sep: char)
    ensures Free(Split(text, sep), sep)
    decreases |text|
  {
    var k := IndexOf(text, sep);
    if k < |text| { SplitIsFree(text[k + 1..], sep); }
  }

  lemma {:induction false} IndexOfHead(head: string, sep: char, rest: string)
    requires sep !in head
    ensures IndexOf(head, sep) == |head|
    ensures IndexOf(head + [sep] + rest, sep) == |head|
  {
    var text := head + [sep] + rest;
    assert text[|head|] == sep;
    assert forall j :: 0 <= j < |head| ==> text[j] == head[j];
  }

  lemma {:induction false} SplitHead(head: string, sep: char, rest: string)
    requires sep !in head
    ensures Split(head, sep) == [head]
    ensures Split(head + [sep] + rest, sep) == [head] + Split(rest, sep)
  {
    IndexOfHead(head, sep, rest);
    var text := head + [sep] + rest;
    assert text[..|head|] == head;
    assert text[|head| + 1..] == rest;
  }

  lemma {:induction false} JoinCons(head: string, sep: char, parts: seq<string>)
    requires parts != []
    ensures Join([head] + parts, sep) == head + [sep] + Join(parts, sep)
  {
    assert ([head] + parts)[1..] == parts;
  }

  lemma CutAt(text: string, sep: char, k: nat)
    requires k < |text| && text[k] == sep
    ensures text == text[..k] + [sep] + text[k + 1..]
  {
  }

  lemma {:induction false} JoinSplit(text: string, sep: char)
    ensures Join(Split(text, sep), sep) == text
    decreases |text|
  {
    var k := IndexOf(text, sep);
    if k < |text| {
      var head, rest := text[..k], text[k + 1..];
      JoinSplit(rest, sep);
      CutAt(text, sep, k);
      SplitHead(head, sep, rest);
      JoinCons(head, sep, Split(rest, sep));
    } else {
      SplitHead(text, sep, "");
    }
  }

  lemma {:induction false} SplitJoin(parts: seq<string>, sep: char)
    requires parts != [] && Free(parts, sep)
    ensures Split(Join(parts, sep), sep) == parts
    decreases |parts|
  {
    if |parts| == 1 {
      SplitHead(parts[0], sep, "");
    } else {
      var tail := parts[1..];
      assert parts == [parts[0]] + tail;
      SplitJoin(tail, sep);
      JoinCons(parts[0], sep, tail);
      SplitHead(parts[0], sep, Join(tail, sep));
    }
  }

  lemma {:induction false} JoinAppend(a: seq<string>, sep: char, b: seq<string>)
    requires a != [] && b != []
    ensures Join(a + b, sep) == Join(a, sep) + [sep] + Join(b, sep)
    decreases |a|
  {
    assert (a + b)[1..] == a[1..] + b;
    if |a| == 1 {
      assert a[1..] + b == b;
    } else {
      var head, tail, rest := a[0] + [sep], Join(a[1..], sep), Join(b, sep);
      JoinAppend(a[1..], sep, b);
      assert head + (tail + [sep] + rest) == head + tail + [sep] + rest;
    }
  }

  // ----- Lexicographic order over any element order

  ghost predicate Orders<T(!new)>(cmp: (T, T) -> int) {
    && (forall x, y :: cmp(x, y) == 0 <==> x == y)
    && (forall x, y :: cmp(x, y) < 0 <==> cmp(y, x) > 0)
    && (forall x, y, z :: cmp(x, y) < 0 && cmp(y, z) < 0 ==> cmp(x, z) < 0)
  }

  function Lex<T>(cmp: (T, T) -> int, a: seq<T>, b: seq<T>): int {
    if a == [] then (if b == [] then 0 else -1)
    else if b == [] then 1
    else if cmp(a[0], b[0]) != 0 then cmp(a[0], b[0])
    else Lex(cmp, a[1..], b[1..])
  }

  lemma {:induction false} LexZero<T(!new)>(cmp: (T, T) -> int, a: seq<T>, b: seq<T>)
    requires Orders(cmp)
    ensures Lex(cmp, a, b) == 0 <==> a == b
  {
    if a != [] && b != [] {
      LexZero(cmp, a[1..], b[1..]);
      assert a == [a[0]] + a[1..] && b == [b[0]] + b[1..];
    }
  }

  lemma {:induction false} LexFlip<T(!new)>(cmp: (T, T) -> int, a: seq<T>, b: seq<T>)
    requires Orders(cmp)
    ensures Lex(cmp, a, b) < 0 <==> Lex(cmp, b, a) > 0
  {
    if a != [] && b != [] {
      LexFlip(cmp, a[1..], b[1..]);
      assert cmp(a[0], b[0]) == 0 <==> cmp(b[0], a[0]) == 0;
    }
  }

  lemma {:induction false} LexTrans<T(!new)>(cmp: (T, T) -> int, a: seq<T>, b: seq<T>, c: seq<T>)
    requires Orders(cmp)
    requires Lex(cmp, a, b) < 0 && Lex(cmp, b, c) < 0
    ensures Lex(cmp, a, c) < 0
  {
    if a != [] {
      var x, y, z := a[0], b[0], c[0];
      if cmp(x, y) == 0 && cmp(y, z) == 0 { LexTrans(cmp, a[1..], b[1..], c[1..]); }
    }
  }

  lemma LexOrders<T(!new)>(cmp: (T, T) -> int)
    requires Orders(cmp)
    ensures Orders((a: seq<T>, b: seq<T>) => Lex(cmp, a, b))
  {
    forall a, b ensures Lex(cmp, a, b) == 0 <==> a == b { LexZero(cmp, a, b); }
    forall a, b ensures Lex(cmp, a, b) < 0 <==> Lex(cmp, b, a) > 0 { LexFlip(cmp, a, b); }
    forall a, b, c | Lex(cmp, a, b) < 0 && Lex(cmp, b, c) < 0 ensures Lex(cmp, a, c) < 0 { LexTrans(cmp, a, b, c); }
  }

  /** `k` is where `a` first falls below `b`. */
  predicate FallsBelowAt<T(==)>(cmp: (T, T) -> int, a: seq<T>, b: seq<T>, k: nat) {
    && k <= |a| && k < |b| && a[..k] == b[..k]
    && (k == |a| || cmp(a[k], b[k]) < 0)
  }

  /** The recursive order is the usual one: at the first difference, `a` has ended
      or holds the smaller element. */
  lemma {:induction false} LexFirstDifference<T(!new)>(cmp: (T, T) -> int, a: seq<T>, b: seq<T>)
    requires Orders(cmp)
    ensures Lex(cmp, a, b) < 0 <==> exists k: nat :: FallsBelowAt(cmp, a, b, k)
  {
    if a == [] {
      if b != [] { assert FallsBelowAt(cmp, a, b, 0); }
    } else if b != [] {
      var a', b' := a[1..], b[1..];
      LexFirstDifference(cmp, a', b');
      if a[0] == b[0] {
        assert forall k: nat :: k < |a| && k < |b| ==> a[..k + 1] == [a[0]] + a'[..k] && b[..k + 1] == [b[0]] + b'[..k];
        if k: nat :| FallsBelowAt(cmp, a', b', k) {
          assert FallsBelowAt(cmp, a, b, k + 1);
        }
        if k: nat :| FallsBelowAt(cmp, a, b, k) {
          assert a'[..k - 1] == a[..k][1..] && b'[..k - 1] == b[..k][1..];
          assert FallsBelowAt(cmp, a', b', k - 1);
        }
      } else {
        assert FallsBelowAt(cmp, a, b, 0) <==> cmp(a[0], b[0]) < 0;
        forall k: nat | 0 < k <= |a| && k <= |b| ensures a[..k] != b[..k] {
          assert a[..k][0] != b[..k][0];
        }
      }
    }
  }

  function CharOrder(x: char, y: char): int {
    x as int - y as int
  }

  /** JavaScript's `a < b` on strings. */
  function StringOrder(a: string, b: string): int {
    Lex(CharOrder, a, b)
  }

  lemma StringOrders()
    ensures Orders(StringOrder)
  {
    assert Orders(CharOrder);
    LexOrders(CharOrder);
    assert forall a: string, b: string :: StringOrder(a, b) == ((x: string, y: string) => Lex(CharOrder, x, y))(a, b);
  }
}
