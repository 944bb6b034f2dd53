/**
 Parsing, printing and ordering of versions, against Semantic Versioning 2.0.0.
 */
module SemVer {
  import opened Decimal
  import opened Options
  import opened Texts
  import opened SemVerNumbers

  /** What `parseVersion` returns. */
  datatype Version = Version(major: nat, minor: nat, patch: nat, prerelease: string, build: string, raw: string)

  // ----- Identifier grammars

  predicate IsLetterOrHyphen(c: char) {
    'A' <= c <= 'Z' || 'a' <= c <= 'z' || c == '-'
  }

  predicate IsIdentChar(c: char) {
    IsDigit(c) || IsLetterOrHyphen(c)
  }

  predicate AllIdentChars(s: string) {
    forall i :: 0 <= i < |s| ==> IsIdentChar(s[i])
  }

  function LeadingDigits(s: string): (n: nat)
    ensures n <= |s| && (forall i :: 0 <= i < n ==> IsDigit(s[i])) && (n < |s| ==> !IsDigit(s[n]))
  {
    if s == "" || !IsDigit(s[0]) then 0 else 1 + LeadingDigits(s[1..])
  }

  /** `/^(?:0|[1-9]\d*|\d*[A-Za-z-][0-9A-Za-z-]*)$/`. */
  predicate PrereleaseIdentifier(s: string) {
    || Canonical(s)
    || (var n := LeadingDigits(s);
        n < |s| && IsLetterOrHyphen(s[n]) && AllIdentChars(s[n + 1..]))
  }

  /** `/^[0-9A-Za-z-]+$/`. */
  predicate BuildIdentifier(s: string) {
    s != "" && AllIdentChars(s)
  }

  predicate ValidPrerelease(text: string) {
    forall part | part in Split(text, '.') :: PrereleaseIdentifier(part)
  }

  predicate ValidBuild(text: string) {
    forall part | part in Split(text, '.') :: BuildIdentifier(part)
  }

  /** Section 9: ASCII alphanumerics and hyphens, not empty, and no leading zero in
      a numeric identifier. */
  predicate Section9Identifier(s: string) {
    s != "" && AllIdentChars(s) && (AllDigits(s) ==> Canonical(s))
  }

  lemma PrereleaseIdentifierIsSection9(s: string)
    ensures PrereleaseIdentifier(s) <==> Section9Identifier(s)
  {
    var n := LeadingDigits(s);
    if n < |s| {
      assert forall i :: n + 1 <= i < |s| ==> s[i] == s[n + 1..][i - n - 1];
      assert AllIdentChars(s[n + 1..]) <==> forall i :: n + 1 <= i < |s| ==> IsIdentChar(s[i]);
      assert !AllDigits(s);
    }
  }

  // ----- parseVersion

  datatype Match = Match(major: string, minor: string, patch: string, prerelease: Option<string>, build: Option<string>)

  /** `\d+` followed by `stop`, at the start of `s`: the digits and what is left. */
  function TakeNumber(s: string): (r: Option<(string, string)>)
    ensures r.Some? ==> AllDigits(r.value.0) && s == r.value.0 + r.value.1
                        && (r.value.1 != "" ==> !IsDigit(r.value.1[0]))
  {
    var n := LeadingDigits(s);
    if n == 0 then None else Some((s[..n], s[n..]))
  }

  predicate IsLineTerminator(c: char) {
    c == '\n' || c == '\r' || c == '\U{2028}' || c == '\U{2029}'
  }

  predicate NoLineTerminator(s: string) {
    forall i :: 0 <= i < |s| ==> !IsLineTerminator(s[i])
  }

  /** `(?:-([^+]*))?(?:\+(.*))?$`. */
  function MatchSuffix(s: string): Option<(Option<string>, Option<string>)> {
    if s == "" then Some((None, None))
    else if s[0] == '-' then
      var k := IndexOf(s, '+');
      if k == |s| then Some((Some(s[1..]), None))
      else if NoLineTerminator(s[k + 1..]) then Some((Some(s[1..k]), Some(s[k + 1..])))
      else None
    else if s[0] == '+' && NoLineTerminator(s[1..]) then Some((None, Some(s[1..])))
    else None
  }

  function TakeDot(s: string): Option<string> {
    if s != "" && s[0] == '.' then Some(s[1..]) else None
  }

  /** The regular expression of `parseVersion`. */
  function MatchVersion(s: string): Option<Match> {
    match TakeNumber(s) case None => None case Some((major, s1)) =>
    match TakeDot(s1) case None => None case Some(s2) =>
    match TakeNumber(s2) case None => None case Some((minor, s3)) =>
    match TakeDot(s3) case None => None case Some(s4) =>
    match TakeNumber(s4) case None => None case Some((patch, s5)) =>
    match MatchSuffix(s5) case None => None case Some((prerelease, build)) =>
    Some(Match(major, minor, patch, prerelease, build))
  }

  function OrEmpty(s: Option<string>): string {
    if s.Some? then s.value else ""
  }

  function ParseVersion(value: string): Option<Version> {
    match MatchVersion(value) case None => None case Some(m) => ParseMatch(m, value)
  }

  /** The checks on a match, and the version it stands for. */
  function ParseMatch(m: Match, value: string): Option<Version> {
    var major, minor, patch := ParseNumeric(m.major), ParseNumeric(m.minor), ParseNumeric(m.patch);
    if major.None? || minor.None? || patch.None? then None
    else if m.prerelease.Some? && !ValidPrerelease(m.prerelease.value) then None
    else if m.build.Some? && !ValidBuild(m.build.value) then None
    else Some(Version(major.value, minor.value, patch.value, OrEmpty(m.prerelease), OrEmpty(m.build), value))
  }

  // ----- The grammar and the printer

  function Suffix(prerelease: Option<string>, build: Option<string>): string {
    (if prerelease.Some? then "-" + prerelease.value else "") + (if build.Some? then "+" + build.value else "")
  }

  function Spell(m: Match): string {
    m.major + ("." + (m.minor + ("." + (m.patch + Suffix(m.prerelease, m.build)))))
  }

  predicate CoreNumber(s: string) {
    Canonical(s) && Value(s) <= MAX_SAFE_INTEGER
  }

  /** Sections 2, 9 and 10, with core numbers at most 2^53 - 1. */
  predicate Grammatical(m: Match) {
    && CoreNumber(m.major) && CoreNumber(m.minor) && CoreNumber(m.patch)
    && (m.prerelease.Some? ==> forall part | part in Split(m.prerelease.value, '.') :: Section9Identifier(part))
    && (m.build.Some? ==> ValidBuild(m.build.value))
  }

  predicate WellFormed(v: Version) {
    && v.major <= MAX_SAFE_INTEGER && v.minor <= MAX_SAFE_INTEGER && v.patch <= MAX_SAFE_INTEGER
    && (v.prerelease != "" ==> ValidPrerelease(v.prerelease))
    && (v.build != "" ==> ValidBuild(v.build))
  }

  function NonEmpty(s: string): Option<string> {
    if s == "" then None else Some(s)
  }

  function Print(v: Version): string {
    Spell(Match(Digits(v.major), Digits(v.minor), Digits(v.patch), NonEmpty(v.prerelease), NonEmpty(v.build)))
  }
}
