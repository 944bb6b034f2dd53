/**
 The precedence of versions: a total order up to build metadata, and exactly the
 one of section 11 of Semantic Versioning 2.0.0.
 */
module SemVerOrder {
  import opened Options
  import opened Texts
  import opened SemVerNumbers
  import opened SemVer
  import opened SemVerParsing

  // ----- Specification of the comparisons

  function IdentifierOrder(x: string, y: string): int {
    if AllDigits(x) && AllDigits(y) then CompareNumeric(x, y)
    else if AllDigits(x) != AllDigits(y) then (if AllDigits(x) then -1 else 1)
    else if x != y then (if StringOrder(x, y) < 0 then -1 else 1)
    else 0
  }

  function PrereleaseOrder(a: string, b: string): int {
    if a == b then 0
    else if a == "" then 1
    else if b == "" then -1
    else Lex(IdentifierOrder, Split(a, '.'), Split(b, '.'))
  }

  function VersionOrder(a: Version, b: Version): int {
    if a.major != b.major then a.major - b.major
    else if a.minor != b.minor then a.minor - b.minor
    else if a.patch != b.patch then a.patch - b.patch
    else PrereleaseOrder(a.prerelease, b.prerelease)
  }

  /** `assertFullVersion`. */
  predicate FullVersion(v: Version) {
    && v.major <= MAX_SAFE_INTEGER && v.minor <= MAX_SAFE_INTEGER && v.patch <= MAX_SAFE_INTEGER
    && (v.prerelease == "" || ValidPrerelease(v.prerelease))
  }

  /** `compareVersions`; `None` where it throws a `TypeError`. */
  function CompareVersions(a: Version, b: Version): Option<int> {
    if FullVersion(a) && FullVersion(b) then Some(VersionOrder(a, b)) else None
  }

  lemma LexSkip(a: seq<string>, b: seq<string>, i: nat)
    requires i < |a| && i < |b|
    ensures Lex(IdentifierOrder, a[i..], b[i..]) ==
              (if IdentifierOrder(a[i], b[i]) != 0 then IdentifierOrder(a[i], b[i])
               else Lex(IdentifierOrder, a[i + 1..], b[i + 1..]))
  {
    assert a[i..][1..] == a[i + 1..] && b[i..][1..] == b[i + 1..];
  }

  method ComparePrerelease(a: string, b: string) returns (r: int)
    ensures r == PrereleaseOrder(a, b)
  {
    if a == b { return 0; }
    if a == "" { return 1; }
    if b == "" { return -1; }
    var left := Split(a, '.');
    var right := Split(b, '.');
    var i := 0;
    assert left[0..] == left && right[0..] == right;
    while i < |left| || i < |right|
      invariant i <= |left| && i <= |right|
      invariant Lex(IdentifierOrder, left[i..], right[i..]) == Lex(IdentifierOrder, left, right)
      decreases |left| + |right| - i
    {
      if i >= |left| { return -1; }
      if i >= |right| { return 1; }
      LexSkip(left, right, i);
      var leftNumeric := AllDigits(left[i]);
      var rightNumeric := AllDigits(right[i]);
      if leftNumeric && rightNumeric {
        var difference := CompareNumeric(left[i], right[i]);
        if difference != 0 { return difference; }
      } else if leftNumeric != rightNumeric {
        return if leftNumeric then -1 else 1;
      } else if left[i] != right[i] {
        return if StringOrder(left[i], right[i]) < 0 then -1 else 1;
      }
      i := i + 1;
    }
    return 0;
  }

  // ----- A total order

  lemma NumericOrders()
    ensures Orders(CompareNumeric)
  {
    StringOrders();
    forall x, y ensures CompareNumeric(x, y) < 0 <==> CompareNumeric(y, x) > 0 {
      assert StringOrder(x, y) < 0 <==> StringOrder(y, x) > 0;
      assert StringOrder(x, y) == 0 <==> x == y;
    }
    forall x, y, z | CompareNumeric(x, y) < 0 && CompareNumeric(y, z) < 0 ensures CompareNumeric(x, z) < 0 {
      if |x| == |y| == |z| { assert StringOrder(x, z) < 0; }
    }
  }

  lemma IdentifierOrders()
    ensures Orders(IdentifierOrder)
  {
    NumericOrders();
    StringOrders();
    forall x, y ensures IdentifierOrder(x, y) == 0 <==> x == y {
      assert CompareNumeric(x, y) == 0 <==> x == y;
    }
    forall x, y ensures IdentifierOrder(x, y) < 0 <==> IdentifierOrder(y, x) > 0 {
      assert CompareNumeric(x, y) < 0 <==> CompareNumeric(y, x) > 0;
      assert StringOrder(x, y) < 0 <==> StringOrder(y, x) > 0;
      assert StringOrder(x, y) == 0 <==> x == y;
    }
    forall x, y, z | IdentifierOrder(x, y) < 0 && IdentifierOrder(y, z) < 0 ensures IdentifierOrder(x, z) < 0 {
      if AllDigits(x) && AllDigits(z) { assert CompareNumeric(x, z) < 0; }
      else if !AllDigits(x) { assert StringOrder(x, z) < 0; }
    }
  }

  lemma PrereleaseOrders()
    ensures Orders(PrereleaseOrder)
  {
    IdentifierOrders();
    forall a, b ensures PrereleaseOrder(a, b) == 0 <==> a == b {
      LexZero(IdentifierOrder, Split(a, '.'), Split(b, '.'));
      JoinSplit(a, '.');
      JoinSplit(b, '.');
    }
    forall a, b ensures PrereleaseOrder(a, b) < 0 <==> PrereleaseOrder(b, a) > 0 {
      LexFlip(IdentifierOrder, Split(a, '.'), Split(b, '.'));
    }
    forall a, b, c | PrereleaseOrder(a, b) < 0 && PrereleaseOrder(b, c) < 0 ensures PrereleaseOrder(a, c) < 0 {
      if a != "" && b != "" && c != "" {
        LexTrans(IdentifierOrder, Split(a, '.'), Split(b, '.'), Split(c, '.'));
        LexZero(IdentifierOrder, Split(a, '.'), Split(c, '.'));
      }
    }
  }

  predicate SamePrecedence(a: Version, b: Version) {
    a.major == b.major && a.minor == b.minor && a.patch == b.patch && a.prerelease == b.prerelease
  }

  /** Total and antisymmetric: zero exactly when core and prerelease agree, and
      swapping the operands swaps the sign. */
  lemma VersionOrderIsTotal(a: Version, b: Version)
    ensures VersionOrder(a, b) == 0 <==> SamePrecedence(a, b)
    ensures VersionOrder(a, b) < 0 <==> VersionOrder(b, a) > 0
  {
    PrereleaseOrders();
    assert PrereleaseOrder(a.prerelease, b.prerelease) < 0 <==> PrereleaseOrder(b.prerelease, a.prerelease) > 0;
    assert PrereleaseOrder(a.prerelease, b.prerelease) == 0 <==> a.prerelease == b.prerelease;
  }

  lemma VersionOrderIsTransitive(a: Version, b: Version, c: Version)
    requires VersionOrder(a, b) < 0 && VersionOrder(b, c) < 0
    ensures VersionOrder(a, c) < 0
  {
    PrereleaseOrders();
    if a.major == b.major == c.major && a.minor == b.minor == c.minor && a.patch == b.patch == c.patch {
      assert PrereleaseOrder(a.prerelease, c.prerelease) < 0;
    }
  }

  /** Whatever parses can be compared: no parsed version makes `compareVersions`
      throw. */
  lemma ParsedIsFull(s: string)
    requires ParseVersion(s).Some?
    ensures FullVersion(ParseVersion(s).value)
  {
    ParsePrints(s);
  }

  // ----- Section 11, stated on its own terms

  /** 11.4.1 to 11.4.3: numeric identifiers numerically, others by ASCII order,
      numeric below non-numeric. */
  ghost predicate IdentifierPrecedes(x: string, y: string) {
    if AllDigits(x) then AllDigits(y) ==> Value(x) < Value(y)
    else !AllDigits(y) && exists k: nat :: FallsBelowAt(CharOrder, x, y, k)
  }

  /** 11.4: the first differing field decides, and 11.4.4: with all of them equal
      the longer list is higher. */
  ghost predicate FieldsPrecede(p: seq<string>, q: seq<string>) {
    exists k: nat ::
      && k <= |p| && k < |q| && p[..k] == q[..k]
      && (k == |p| || IdentifierPrecedes(p[k], q[k]))
  }

  /** 11.2 and 11.3. */
  ghost predicate Precedes(a: Version, b: Version) {
    || a.major < b.major
    || (a.major == b.major && a.minor < b.minor)
    || (a.major == b.major && a.minor == b.minor && a.patch < b.patch)
    || (a.major == b.major && a.minor == b.minor && a.patch == b.patch &&
        if a.prerelease == "" then false
        else b.prerelease == "" || FieldsPrecede(Split(a.prerelease, '.'), Split(b.prerelease, '.')))
  }

  lemma IdentifierOrderIsSection11(x: string, y: string)
    requires PrereleaseIdentifier(x) && PrereleaseIdentifier(y)
    ensures IdentifierOrder(x, y) < 0 <==> IdentifierPrecedes(x, y)
  {
    PrereleaseIdentifierIsSection9(x);
    PrereleaseIdentifierIsSection9(y);
    if AllDigits(x) && AllDigits(y) {
      CompareNumericIsExact(x, y);
    } else if !AllDigits(x) && !AllDigits(y) {
      assert Orders(CharOrder);
      LexFirstDifference(CharOrder, x, y);
      StringOrders();
      assert StringOrder(x, y) == 0 <==> x == y;
    }
  }

  lemma {:induction false} FieldOrderIsSection11(p: seq<string>, q: seq<string>)
    requires forall x | x in p :: PrereleaseIdentifier(x)
    requires forall y | y in q :: PrereleaseIdentifier(y)
    ensures Lex(IdentifierOrder, p, q) < 0 <==> FieldsPrecede(p, q)
  {
    IdentifierOrders();
    LexFirstDifference(IdentifierOrder, p, q);
    forall k: nat | k < |p| && k < |q|
      ensures IdentifierOrder(p[k], q[k]) < 0 <==> IdentifierPrecedes(p[k], q[k])
    {
      IdentifierOrderIsSection11(p[k], q[k]);
    }
    if k: nat :| FallsBelowAt(IdentifierOrder, p, q, k) {
      assert k == |p| || IdentifierPrecedes(p[k], q[k]);
    }
    if FieldsPrecede(p, q) {
      var k: nat :| k <= |p| && k < |q| && p[..k] == q[..k] && (k == |p| || IdentifierPrecedes(p[k], q[k]));
      assert FallsBelowAt(IdentifierOrder, p, q, k);
    }
  }

  /** `compareVersions` is section 11: negative exactly when the left version has
      lower precedence, positive exactly when the right one has, zero otherwise. */
  lemma CompareIsSection11(a: Version, b: Version)
    requires FullVersion(a) && FullVersion(b)
    ensures CompareVersions(a, b).Some?
    ensures CompareVersions(a, b).value < 0 <==> Precedes(a, b)
    ensures CompareVersions(a, b).value > 0 <==> Precedes(b, a)
    ensures CompareVersions(a, b).value == 0 <==> SamePrecedence(a, b)
  {
    LessIsSection11(a, b);
    LessIsSection11(b, a);
    VersionOrderIsTotal(a, b);
    VersionOrderIsTotal(b, a);
  }

  lemma LessIsSection11(a: Version, b: Version)
    requires FullVersion(a) && FullVersion(b)
    ensures VersionOrder(a, b) < 0 <==> Precedes(a, b)
  {
    var p, q := Split(a.prerelease, '.'), Split(b.prerelease, '.');
    if a.prerelease != "" && b.prerelease != "" {
      FieldOrderIsSection11(p, q);
      IdentifierOrders();
      LexZero(IdentifierOrder, p, q);
    }
  }
}
