/**
 Parsing and printing undo each other, and exactly the grammatical versions
 parse.
 */
module SemVerParsing {
  import opened Decimal
  import opened Options
  import opened Texts
  import opened SemVerNumbers
  import opened SemVer

  // ----- The regular expression against its spelling

  lemma NumberThen(digits: string, rest: string)
    requires AllDigits(digits) && (rest == "" || !IsDigit(rest[0]))
    ensures TakeNumber(digits + rest) == Some((digits, rest))
  {
    var s := digits + rest;
    assert forall i :: 0 <= i < |digits| ==> s[i] == digits[i];
    assert rest != "" ==> s[|digits|] == rest[0];
    assert LeadingDigits(s) == |digits|;
    assert s[..|digits|] == digits && s[|digits|..] == rest;
  }

  predicate SuffixParts(prerelease: Option<string>, build: Option<string>) {
    && (prerelease.Some? ==> '+' !in prerelease.value)
    && (build.Some? ==> NoLineTerminator(build.value))
  }

  lemma BuildMatches(build: string)
    requires NoLineTerminator(build)
    ensures MatchSuffix("+" + build) == Some((None, Some(build)))
  {
    assert ("+" + build)[1..] == build;
  }

  lemma PrereleaseMatches(prerelease: string)
    requires '+' !in prerelease
    ensures MatchSuffix("-" + prerelease) == Some((Some(prerelease), None))
  {
    var s := "-" + prerelease;
    assert s[1..] == prerelease;
    IndexOfHead(s, '+', "");
  }

  lemma BothMatch(prerelease: string, build: string)
    requires '+' !in prerelease && NoLineTerminator(build)
    ensures MatchSuffix("-" + prerelease + ['+'] + build) == Some((Some(prerelease), Some(build)))
  {
    var s := "-" + prerelease + ['+'] + build;
    IndexOfHead("-" + prerelease, '+', build);
    assert s[1..|prerelease| + 1] == prerelease && s[|prerelease| + 2..] == build;
  }

  lemma SuffixMatches(prerelease: Option<string>, build: Option<string>)
    requires SuffixParts(prerelease, build)
    ensures MatchSuffix(Suffix(prerelease, build)) == Some((prerelease, build))
  {
    var s := Suffix(prerelease, build);
    match (prerelease, build)
    case (None, None) =>
    case (None, Some(b)) =>
      BuildMatches(b);
      assert s == "+" + b;
    case (Some(p), None) =>
      PrereleaseMatches(p);
      assert s == "-" + p;
    case (Some(p), Some(b)) =>
      BothMatch(p, b);
      assert s == "-" + p + ['+'] + b;
  }

  lemma SuffixSpells(s: string)
    requires MatchSuffix(s).Some?
    ensures var (prerelease, build) := MatchSuffix(s).value;
            Suffix(prerelease, build) == s && SuffixParts(prerelease, build)
  {
    if s != "" && s[0] == '-' {
      var k := IndexOf(s, '+');
      if k < |s| { assert s == "-" + s[1..k] + ("+" + s[k + 1..]); }
      else { assert s == "-" + s[1..]; }
    } else if s != "" {
      assert s == "+" + s[1..];
    }
  }

  predicate Matchable(m: Match) {
    && AllDigits(m.major) && AllDigits(m.minor) && AllDigits(m.patch)
    && SuffixParts(m.prerelease, m.build)
  }

  lemma DotThen(rest: string)
    ensures TakeDot("." + rest) == Some(rest)
  {
    assert ("." + rest)[1..] == rest;
  }

  lemma SpellMatches(m: Match)
    requires Matchable(m)
    ensures MatchVersion(Spell(m)) == Some(m)
  {
    var s5 := Suffix(m.prerelease, m.build);
    var s3 := "." + (m.patch + s5);
    var s1 := "." + (m.minor + s3);
    SuffixMatches(m.prerelease, m.build);
    NumberThen(m.patch, s5);
    DotThen(m.patch + s5);
    NumberThen(m.minor, s3);
    DotThen(m.minor + s3);
    NumberThen(m.major, s1);
  }

  lemma DotTaken(s: string)
    requires TakeDot(s).Some?
    ensures s == "." + TakeDot(s).value
  {
  }

  lemma MatchSpells(s: string)
    requires MatchVersion(s).Some?
    ensures Spell(MatchVersion(s).value) == s && Matchable(MatchVersion(s).value)
  {
    var (major, s1) := TakeNumber(s).value;
    DotTaken(s1);
    var s2 := TakeDot(s1).value;
    var (minor, s3) := TakeNumber(s2).value;
    DotTaken(s3);
    var s4 := TakeDot(s3).value;
    var (patch, s5) := TakeNumber(s4).value;
    SuffixSpells(s5);
  }

  // ----- Identifier lists

  predicate IdentOrDot(text: string) {
    forall i :: 0 <= i < |text| ==> IsIdentChar(text[i]) || text[i] == '.'
  }

  lemma {:induction false} PartsAreIdents(text: string)
    requires forall part | part in Split(text, '.') :: AllIdentChars(part)
    ensures IdentOrDot(text)
    decreases |text|
  {
    var k := IndexOf(text, '.');
    if k < |text| {
      var rest := text[k + 1..];
      assert Split(text, '.') == [text[..k]] + Split(rest, '.');
      PartsAreIdents(rest);
      assert text[..k] in Split(text, '.');
      assert text == text[..k] + ['.'] + rest;
    } else {
      assert Split(text, '.')[0] == text;
      assert text in Split(text, '.');
    }
  }

  lemma PrereleaseText(text: string)
    requires ValidPrerelease(text)
    ensures text != "" && '+' !in text
  {
    forall part | part in Split(text, '.') ensures AllIdentChars(part) { PrereleaseIdentifierIsSection9(part); }
    PartsAreIdents(text);
    EmptySplits();
  }

  lemma EmptySplits()
    ensures Split("", '.') == [""]
    ensures !ValidPrerelease("") && !ValidBuild("")
  {
    assert "" in Split("", '.');
    assert !PrereleaseIdentifier("") && !BuildIdentifier("");
  }

  lemma BuildText(text: string)
    requires ValidBuild(text)
    ensures text != "" && NoLineTerminator(text)
  {
    PartsAreIdents(text);
    EmptySplits();
  }

  lemma {:induction false} ValidPrereleaseIsSection9(text: string)
    ensures ValidPrerelease(text) <==> forall part | part in Split(text, '.') :: Section9Identifier(part)
  {
    forall part | part in Split(text, '.') ensures PrereleaseIdentifier(part) <==> Section9Identifier(part) {
      PrereleaseIdentifierIsSection9(part);
    }
  }

  // ----- The theorems

  /** Printing an accepted version gives back the very string it came from. */
  lemma ParsePrints(s: string)
    requires ParseVersion(s).Some?
    ensures var v := ParseVersion(s).value; Print(v) == s && v.raw == s && WellFormed(v)
  {
    var m := MatchVersion(s).value;
    MatchSpells(s);
    ValueDigits(m.major);
    ValueDigits(m.minor);
    ValueDigits(m.patch);
    if m.prerelease.Some? { PrereleaseText(m.prerelease.value); }
    if m.build.Some? { BuildText(m.build.value); }
    assert NonEmpty(OrEmpty(m.prerelease)) == m.prerelease;
    assert NonEmpty(OrEmpty(m.build)) == m.build;
  }

  function MatchOf(v: Version): Match {
    Match(Digits(v.major), Digits(v.minor), Digits(v.patch), NonEmpty(v.prerelease), NonEmpty(v.build))
  }

  lemma MatchOfParses(v: Version, raw: string)
    requires WellFormed(v)
    ensures ParseMatch(MatchOf(v), raw) == Some(v.(raw := raw))
  {
    DigitsValue(v.major);
    DigitsValue(v.minor);
    DigitsValue(v.patch);
  }

  lemma MatchOfSpells(v: Version)
    requires WellFormed(v)
    ensures MatchVersion(Print(v)) == Some(MatchOf(v))
  {
    DigitsValue(v.major);
    DigitsValue(v.minor);
    DigitsValue(v.patch);
    if v.prerelease != "" { PrereleaseText(v.prerelease); }
    if v.build != "" { BuildText(v.build); }
    SpellMatches(MatchOf(v));
  }

  /** Parsing any printed well-formed version gives back its fields. */
  lemma PrintParses(v: Version)
    requires WellFormed(v)
    ensures ParseVersion(Print(v)) == Some(v.(raw := Print(v)))
  {
    MatchOfSpells(v);
    MatchOfParses(v, Print(v));
  }

  lemma AcceptedIsGrammatical(s: string)
    requires ParseVersion(s).Some?
    ensures var m := MatchVersion(s).value; Grammatical(m) && Spell(m) == s
  {
    var m := MatchVersion(s).value;
    MatchSpells(s);
    if m.prerelease.Some? { ValidPrereleaseIsSection9(m.prerelease.value); }
  }

  lemma GrammaticalMatches(m: Match)
    requires Grammatical(m)
    ensures MatchVersion(Spell(m)) == Some(m)
  {
    if m.prerelease.Some? {
      ValidPrereleaseIsSection9(m.prerelease.value);
      PrereleaseText(m.prerelease.value);
    }
    if m.build.Some? { BuildText(m.build.value); }
    SpellMatches(m);
  }

  lemma GrammaticalParses(m: Match, raw: string)
    requires Grammatical(m)
    ensures ParseMatch(m, raw).Some?
  {
    if m.prerelease.Some? { ValidPrereleaseIsSection9(m.prerelease.value); }
  }

  lemma GrammaticalIsAccepted(m: Match)
    requires Grammatical(m)
    ensures ParseVersion(Spell(m)).Some?
  {
    GrammaticalMatches(m);
    GrammaticalParses(m, Spell(m));
  }

  /** Exactly the strings of the grammar are accepted. */
  lemma AcceptsExactlyTheGrammar(s: string)
    ensures ParseVersion(s).Some? <==> exists m :: Grammatical(m) && Spell(m) == s
  {
    if ParseVersion(s).Some? { AcceptedIsGrammatical(s); }
    forall m | Grammatical(m) && Spell(m) == s ensures ParseVersion(s).Some? {
      GrammaticalIsAccepted(m);
    }
  }
}
