/**
 Decimal identifiers: their values, their canonical spelling, and the exact
 comparison of canonical digit strings of any length.
 */
module SemVerNumbers {
  import opened Decimal
  import opened Options
  import opened Texts

  const MAX_SAFE_INTEGER: nat := 0x1F_FFFF_FFFF_FFFF  // 2^53 - 1

  /** `/^\d+$/`. */
  predicate AllDigits(s: string) {
    s != "" && forall i :: 0 <= i < |s| ==> IsDigit(s[i])
  }

  /** `/^(0|[1-9]\d*)$/`. */
  predicate Canonical(s: string) {
    AllDigits(s) && (s[0] == '0' ==> |s| == 1)
  }

  function Value(s: string): nat
    requires forall i :: 0 <= i < |s| ==> IsDigit(s[i])
  {
    if s == "" then 0 else 10 * Value(s[..|s| - 1]) + DigitValue(s[|s| - 1])
  }

  lemma {:induction false} DigitsValue(n: nat)
    ensures Canonical(Digits(n)) && Value(Digits(n)) == n
    ensures Digits(n)[0] == '0' <==> n == 0
  {
    if n < 10 {
      assert Value(Digits(n)[..0]) == 0;
    } else {
      DigitsValue(n / 10);
      var s := Digits(n);
      assert s[..|s| - 1] == Digits(n / 10);
    }
  }

  function Power(n: nat): (p: nat)
    ensures p >= 1
  {
    if n == 0 then 1 else 10 * Power(n - 1)
  }

  /** A digit string's value is below 10^length; with a leading non-zero digit it
      is at least 10^(length - 1). */
  lemma {:induction false} ValueBounds(s: string)
    requires AllDigits(s)
    ensures Value(s) < Power(|s|)
    ensures s[0] != '0' ==> Value(s) >= Power(|s| - 1)
  {
    var front := s[..|s| - 1];
    if |s| == 1 {
      assert Value(front) == 0;
      assert Power(1) == 10 * Power(0);
    } else {
      ValueBounds(front);
    }
  }

  lemma {:induction false} ValueDigits(s: string)
    requires Canonical(s)
    ensures Digits(Value(s)) == s
  {
    var front := s[..|s| - 1];
    if |s| == 1 {
      assert Value(front) == 0;
    } else {
      ValueDigits(front);
      ValueBounds(front);
      assert s == front + [s[|s| - 1]];
    }
  }

  /** Appending one digit on each side: the front decides unless it is equal. */
  lemma {:induction false} OrderSnoc(a: string, b: string, x: char, y: char)
    requires |a| == |b|
    ensures StringOrder(a + [x], b + [y]) == (if a == b then CharOrder(x, y) else StringOrder(a, b))
  {
    if a == "" {
      assert a + [x] == [x] && b + [y] == [y];
      assert Lex(CharOrder, [x][1..], [y][1..]) == 0;
    } else {
      assert (a + [x])[1..] == a[1..] + [x] && (b + [y])[1..] == b[1..] + [y];
      assert a == [a[0]] + a[1..] && b == [b[0]] + b[1..];
      OrderSnoc(a[1..], b[1..], x, y);
    }
  }

  /** At equal length, the lexicographic order is the numeric one. */
  lemma {:induction false} SameLengthOrder(a: string, b: string)
    requires |a| == |b| && (forall i :: 0 <= i < |a| ==> IsDigit(a[i]) && IsDigit(b[i]))
    ensures StringOrder(a, b) < 0 <==> Value(a) < Value(b)
    ensures Value(a) == Value(b) <==> a == b
  {
    if a != "" {
      var n := |a| - 1;
      SameLengthOrder(a[..n], b[..n]);
      OrderSnoc(a[..n], b[..n], a[n], b[n]);
      assert a == a[..n] + [a[n]] && b == b[..n] + [b[n]];
    }
  }

  // ----- The source's functions

  /** `parseNumericIdentifier`. */
  function ParseNumeric(text: string): Option<nat> {
    if Canonical(text) && Value(text) <= MAX_SAFE_INTEGER then Some(Value(text)) else None
  }

  /** `compareNumericIdentifiers`. */
  function CompareNumeric(left: string, right: string): int {
    if |left| != |right| then (if |left| < |right| then -1 else 1)
    else if left == right then 0
    else if StringOrder(left, right) < 0 then -1 else 1
  }

  function Sign(n: int): int {
    if n < 0 then -1 else if n == 0 then 0 else 1
  }

  lemma {:induction false} PowerMonotone(m: nat, n: nat)
    requires m <= n
    ensures Power(m) <= Power(n)
    decreases n - m
  {
    if m < n { PowerMonotone(m, n - 1); }
  }

  lemma {:induction false} ShorterIsSmaller(left: string, right: string)
    requires Canonical(left) && Canonical(right) && |left| < |right|
    ensures Value(left) < Value(right)
  {
    ValueBounds(left);
    ValueBounds(right);
    PowerMonotone(|left|, |right| - 1);
  }

  /** The comparison is the sign of the difference of the decimal values, for
      canonical digit strings of every length. */
  lemma {:induction false} CompareNumericIsExact(left: string, right: string)
    requires Canonical(left) && Canonical(right)
    ensures CompareNumeric(left, right) == Sign(Value(left) - Value(right))
  {
    if |left| < |right| { ShorterIsSmaller(left, right); }
    else if |right| < |left| { ShorterIsSmaller(right, left); }
    else { SameLengthOrder(left, right); }
  }
}
