/**
 The lexical structure of `build.rs` text, as the input scanner sees it: what a
 token is, how a token list is written down, and when a written list can be
 read back. `Lex` is the reference lexer; `LexRenders` and `LexReadsBack` show
 that it is exactly the inverse of rendering, so every text has one and only
 one token list.

 `ident` decides which characters continue an identifier; every result holds
 for any such predicate.
 */
module BuildRsTokens {
  import opened Decimal
  import opened Options

  /** One piece of a block comment's body. */
  datatype Mark = Open | Shut | Plain(c: char)

  datatype Token =
    | Code(c: char)
    | LineComment(body: string)
    | BlockComment(marks: seq<Mark>, closed: bool)
    | RawString(prefix: string, hashes: nat, body: string, closed: bool)
    | Str(body: string, closed: bool)
    | CharLit(body: string)

  // ----- Rendering

  function RenderMark(m: Mark): string {
    match m
    case Open => "/*"
    case Shut => "*/"
    case Plain(c) => [c]
  }

  function RenderMarks(marks: seq<Mark>): string {
    if marks == [] then "" else RenderMark(marks[0]) + RenderMarks(marks[1..])
  }

  lemma {:induction false} RenderMarksCons(m: Mark, marks: seq<Mark>)
    ensures RenderMarks([m] + marks) == RenderMark(m) + RenderMarks(marks)
  {
    assert ([m] + marks)[1..] == marks;
  }

  function Hashes(n: nat): string {
    seq(n, _ => '#')
  }

  function RawOpening(prefix: string, hashes: nat): string {
    prefix + "r" + Hashes(hashes) + "\""
  }

  function RawClosing(hashes: nat): string {
    "\"" + Hashes(hashes)
  }

  function Render(t: Token): (text: string)
    ensures |text| >= 1
  {
    match t
    case Code(c) => [c]
    case LineComment(body) => "//" + body
    case BlockComment(marks, closed) => "/*" + RenderMarks(marks) + (if closed then "*/" else "")
    case RawString(prefix, hashes, body, closed) =>
      RawOpening(prefix, hashes) + body + (if closed then RawClosing(hashes) else "")
    case Str(body, closed) => "\"" + body + (if closed then "\"" else "")
    case CharLit(body) => "'" + body + "'"
  }

  function RenderAll(ts: seq<Token>): string {
    if ts == [] then "" else Render(ts[0]) + RenderAll(ts[1..])
  }

  predicate Pair(text: string, a: char, b: char) {
    |text| >= 2 && text[0] == a && text[1] == b
  }

  predicate Begins(text: string, c: char) {
    text != "" && text[0] == c
  }

  // ----- When a rendered token can be read back

  function Delta(m: Mark): int {
    match m case Open => 1 case Shut => -1 case Plain(_) => 0
  }

  function Depth(marks: seq<Mark>): int {
    if marks == [] then 1 else Depth(marks[..|marks| - 1]) + Delta(marks[|marks| - 1])
  }

  /** The comment is still open after every proper prefix of its body. */
  ghost predicate StaysOpen(marks: seq<Mark>) {
    forall k :: 0 <= k <= |marks| ==> Depth(marks[..k]) >= 1
  }

  /** No plain character forms a delimiter with the text that follows it. */
  ghost predicate NoStrayDelimiter(marks: seq<Mark>, rest: string) {
    forall k :: 0 <= k < |marks| ==>
      && (marks[k] == Plain('/') ==> !Begins(RenderMarks(marks[k + 1..]) + rest, '*'))
      && (marks[k] == Plain('*') ==> !Begins(RenderMarks(marks[k + 1..]) + rest, '/'))
  }

  /** Only escaped quotes, and no dangling backslash. */
  predicate StringBody(body: string) {
    || body == ""
    || (body[0] == '\\' && |body| >= 2 && StringBody(body[2..]))
    || (body[0] != '\\' && body[0] != '"' && StringBody(body[1..]))
  }

  predicate Occurs(marker: string, text: string, k: nat) {
    k + |marker| <= |text| && text[k..k + |marker|] == marker
  }

  /** The marker occurs nowhere in `text` before offset `limit`. */
  ghost predicate AbsentBefore(marker: string, text: string, limit: nat) {
    forall k: nat :: k < limit ==> !Occurs(marker, text, k)
  }

  predicate CharBody(body: string) {
    || (|body| == 1 && body[0] != '\\')
    || (2 <= |body| <= 10 && body[0] == '\\' && '\'' !in body[2..])
  }

  predicate RawPrefix(prefix: string) {
    prefix == "" || prefix == "b" || prefix == "c"
  }

  ghost predicate OpensRaw(text: string) {
    exists prefix, hashes: nat :: RawPrefix(prefix) && RawOpening(prefix, hashes) <= text
  }

  ghost predicate OpensChar(text: string) {
    exists body :: CharBody(body) && "'" + body + "'" <= text
  }

  predicate AfterIdent(ident: char -> bool, prev: Option<char>) {
    prev.Some? && ident(prev.value)
  }

  /** `t`, written after `prev` and before `rest`, is the token a reader sees. */
  ghost predicate Fits(ident: char -> bool, prev: Option<char>, t: Token, rest: string) {
    match t
    case Code(c) =>
      var text := [c] + rest;
      && !Pair(text, '/', '/') && !Pair(text, '/', '*') && c != '"'
      && (AfterIdent(ident, prev) || !OpensRaw(text))
      && !OpensChar(text)
    case LineComment(body) => '\n' !in body && (rest == "" || rest[0] == '\n')
    case BlockComment(marks, closed) =>
      && StaysOpen(marks)
      && NoStrayDelimiter(marks, if closed then "*/" + rest else rest)
      && (if closed then Depth(marks) == 1 else rest == "")
    case RawString(prefix, hashes, body, closed) =>
      && RawPrefix(prefix) && !AfterIdent(ident, prev)
      && if closed then AbsentBefore(RawClosing(hashes), body + RawClosing(hashes) + rest, |body|)
         else rest == "" && AbsentBefore(RawClosing(hashes), body, |body|)
    case Str(body, closed) =>
      if closed then StringBody(body)
      else rest == "" && (StringBody(body) || (body != "" && body[|body| - 1] == '\\' && StringBody(body[..|body| - 1])))
    case CharLit(body) => CharBody(body)
  }

  function LastChar(t: Token): Option<char> {
    Some(Render(t)[|Render(t)| - 1])
  }

  /** Every token of the list fits where it stands. */
  ghost predicate Readable(ident: char -> bool, prev: Option<char>, ts: seq<Token>)
    decreases ts
  {
    ts != [] ==>
      && Fits(ident, prev, ts[0], RenderAll(ts[1..]))
      && Readable(ident, LastChar(ts[0]), ts[1..])
  }

  // ----- What the scanner reports for a token list

  const NUL: char := '\0'

  function Placeholder(k: nat): string {
    [NUL] + Digits(k) + [NUL]
  }

  function Newlines(marks: seq<Mark>): string {
    if marks == [] then ""
    else (if marks[0] == Plain('\n') then "\n" else "") + Newlines(marks[1..])
  }

  predicate IsString(t: Token) {
    t.RawString? || t.Str?
  }

  function CodeOf(t: Token, k: nat): string {
    match t
    case Code(c) => [c]
    case LineComment(_) => ""
    case BlockComment(marks, _) => Newlines(marks)
    case RawString(_, _, _, _) => Placeholder(k)
    case Str(_, _) => Placeholder(k)
    case CharLit(_) => ""
  }

  /** The code view, numbering string literals from `k`. */
  function CodeView(ts: seq<Token>, k: nat): string {
    if ts == [] then ""
    else CodeOf(ts[0], k) + CodeView(ts[1..], if IsString(ts[0]) then k + 1 else k)
  }

  function Strings(ts: seq<Token>): seq<string> {
    if ts == [] then [] else (if IsString(ts[0]) then [ts[0].body] else []) + Strings(ts[1..])
  }

  // ----- The reference lexer

  function LineLength(text: string): (n: nat)
    ensures n <= |text| && (forall k :: 0 <= k < n ==> text[k] != '\n') && (n < |text| ==> text[n] == '\n')
  {
    if text == "" || text[0] == '\n' then 0 else 1 + LineLength(text[1..])
  }

  datatype Body = Body(marks: seq<Mark>, closed: bool, rest: string)

  function RenderBody(body: Body): string {
    RenderMarks(body.marks) + ((if body.closed then "*/" else "") + body.rest)
  }

  function Prepend(m: Mark, body: Body): Body {
    body.(marks := [m] + body.marks)
  }

  lemma PrependRenders(m: Mark, body: Body)
    ensures RenderBody(Prepend(m, body)) == RenderMark(m) + RenderBody(body)
  {
    RenderMarksCons(m, body.marks);
  }

  /** Reads a comment body that is `depth` levels deep, up to the delimiter that
      closes it or the end of the text. */
  function ReadMarks(text: string, depth: nat): Body
    requires depth >= 1
  {
    if text == "" then Body([], false, "")
    else if Pair(text, '/', '*') then Prepend(Open, ReadMarks(text[2..], depth + 1))
    else if Pair(text, '*', '/') then
      if depth == 1 then Body([], true, text[2..])
      else Prepend(Shut, ReadMarks(text[2..], depth - 1))
    else Prepend(Plain(text[0]), ReadMarks(text[1..], depth))
  }

  lemma PrependStep(m: Mark, body: Body, text: string)
    requires RenderMark(m) <= text && RenderBody(body) == text[|RenderMark(m)|..]
    ensures RenderBody(Prepend(m, body)) == text
  {
    PrependRenders(m, body);
    assert text == RenderMark(m) + text[|RenderMark(m)|..];
  }

  lemma {:induction false} ReadMarksRenders(text: string, depth: nat)
    requires depth >= 1
    ensures RenderBody(ReadMarks(text, depth)) == text
  {
    if text == "" {
    } else if Pair(text, '/', '*') {
      ReadMarksRenders(text[2..], depth + 1);
      PrependStep(Open, ReadMarks(text[2..], depth + 1), text);
    } else if Pair(text, '*', '/') {
      if depth > 1 {
        ReadMarksRenders(text[2..], depth - 1);
        PrependStep(Shut, ReadMarks(text[2..], depth - 1), text);
      } else {
        assert text == "*/" + text[2..];
      }
    } else {
      ReadMarksRenders(text[1..], depth);
      PrependStep(Plain(text[0]), ReadMarks(text[1..], depth), text);
    }
  }

  function HashCount(text: string): (n: nat)
    ensures n <= |text| && (forall k :: 0 <= k < n ==> text[k] == '#') && (n < |text| ==> text[n] != '#')
  {
    if text == "" || text[0] != '#' then 0 else 1 + HashCount(text[1..])
  }

  lemma OpeningIsPrefix(prefix: string, n: nat, text: string, tail: string)
    requires prefix <= text && |prefix| + n + 1 < |text| && tail == text[|prefix| + 1..]
    requires text[|prefix|] == 'r' && text[|prefix| + 1 + n] == '"'
    requires forall k :: 0 <= k < n ==> tail[k] == '#'
    ensures RawOpening(prefix, n) <= text
  {
    var j, opening := |prefix|, RawOpening(prefix, n);
    assert |opening| == j + n + 2;
    forall k | 0 <= k < |opening| ensures opening[k] == text[k] {
      if j < k <= j + n { assert text[k] == tail[k - j - 1]; }
    }
  }

  function ReadRawOpening(text: string): (r: Option<(string, nat)>)
    ensures r.Some? ==> RawPrefix(r.value.0) && RawOpening(r.value.0, r.value.1) <= text
  {
    var prefix := if text != "" && (text[0] == 'b' || text[0] == 'c') then text[..1] else "";
    var j := |prefix|;
    if j >= |text| || text[j] != 'r' then None
    else
      var n := HashCount(text[j + 1..]);
      if j + 1 + n < |text| && text[j + 1 + n] == '"' then
        OpeningIsPrefix(prefix, n, text, text[j + 1..]);
        Some((prefix, n))
      else None
  }

  /** The first occurrence of the marker from offset `from` on, or the end. */
  function FindFrom(marker: string, text: string, from: nat): (k: nat)
    requires from <= |text|
    ensures from <= k <= |text|
    ensures forall j: nat :: from <= j < k ==> !Occurs(marker, text, j)
    ensures k < |text| ==> Occurs(marker, text, k)
    decreases |text| - from
  {
    if from == |text| || Occurs(marker, text, from) then from
    else FindFrom(marker, text, from + 1)
  }

  function Find(marker: string, text: string): (k: nat)
    ensures k <= |text|
    ensures AbsentBefore(marker, text, k)
    ensures k < |text| ==> Occurs(marker, text, k)
  {
    FindFrom(marker, text, 0)
  }

  /** Length of a string literal's body: up to its closing quote or the end. */
  function StringLength(text: string): (n: nat)
    ensures n <= |text| && (n < |text| ==> text[n] == '"')
  {
    if text == "" || text[0] == '"' then 0
    else if text[0] == '\\' then (if |text| >= 2 then 2 + StringLength(text[2..]) else 1)
    else 1 + StringLength(text[1..])
  }

  /** The first quote in `text` from offset `from` on, below `limit`. */
  function QuoteFrom(text: string, from: nat, limit: nat): (r: Option<nat>)
    ensures r.Some? ==> from <= r.value < limit && r.value < |text| && text[r.value] == '\''
                        && forall k :: from <= k < r.value ==> text[k] != '\''
    ensures r.None? ==> forall k :: from <= k < limit && k < |text| ==> text[k] != '\''
    decreases limit - from
  {
    if from >= limit || from >= |text| then None
    else if text[from] == '\'' then Some(from)
    else QuoteFrom(text, from + 1, limit)
  }

  /** The body of the character literal at the start of `text`, if there is one. */
  function ReadChar(text: string): (r: Option<string>)
    ensures r.Some? ==> CharBody(r.value) && "'" + r.value + "'" <= text
  {
    if text == "" || text[0] != '\'' then None
    else if |text| >= 2 && text[1] == '\\' then
      var close := QuoteFrom(text, 3, 12);
      if close.Some? then
        assert text[1..close.value][2..] == text[3..close.value];
        Some(text[1..close.value])
      else None
    else if |text| >= 3 && text[2] == '\'' then Some(text[1..2])
    else None
  }

  function First(ident: char -> bool, prev: Option<char>, text: string): (t: Token)
    requires text != ""
    ensures Render(t) <= text
  {
    if Pair(text, '/', '/') then ReadLine(text)
    else if Pair(text, '/', '*') then ReadBlock(text)
    else if !AfterIdent(ident, prev) && ReadRawOpening(text).Some? then
      ReadRaw(text)
    else if text[0] == '"' then ReadString(text)
    else if ReadChar(text).Some? then CharLit(ReadChar(text).value)
    else Code(text[0])
  }

  function ReadLine(text: string): (t: Token)
    requires Pair(text, '/', '/')
    ensures t.LineComment? && Render(t) <= text
  {
    var n := LineLength(text[2..]);
    assert text == "//" + text[2..][..n] + text[2..][n..];
    LineComment(text[2..][..n])
  }

  lemma BlockIsPrefix(text: string, body: Body)
    requires Pair(text, '/', '*') && RenderBody(body) == text[2..]
    ensures Render(BlockComment(body.marks, body.closed)) <= text
  {
    assert text == "/*" + text[2..];
    assert text == "/*" + RenderMarks(body.marks) + (if body.closed then "*/" else "") + body.rest;
  }

  function ReadBlock(text: string): (t: Token)
    requires Pair(text, '/', '*')
    ensures t.BlockComment? && Render(t) <= text
  {
    var body := ReadMarks(text[2..], 1);
    ReadMarksRenders(text[2..], 1);
    BlockIsPrefix(text, body);
    BlockComment(body.marks, body.closed)
  }

  function ReadString(text: string): (t: Token)
    requires Begins(text, '"')
    ensures t.Str? && Render(t) <= text
  {
    var n := StringLength(text[1..]);
    assert text == "\"" + text[1..][..n] + text[1..][n..];
    Str(text[1..][..n], n < |text| - 1)
  }

  function ReadRaw(text: string): (t: Token)
    requires ReadRawOpening(text).Some?
    ensures t.RawString? && Render(t) <= text
  {
    var (prefix, hashes) := ReadRawOpening(text).value;
    var tail := text[|RawOpening(prefix, hashes)|..];
    assert text == RawOpening(prefix, hashes) + tail;
    RawFrom(prefix, hashes, tail)
  }

  /** The raw string whose opening has been read and whose text goes on with `tail`. */
  function RawFrom(prefix: string, hashes: nat, tail: string): (t: Token)
    ensures t.RawString? && Render(t) <= RawOpening(prefix, hashes) + tail
  {
    var closing := RawClosing(hashes);
    var n := Find(closing, tail);
    if n < |tail| then
      assert tail[..n] + closing == tail[..n + |closing|];
      RawPrefixOf(RawOpening(prefix, hashes), tail[..n], closing, tail);
      RawString(prefix, hashes, tail[..n], true)
    else
      RawPrefixOf(RawOpening(prefix, hashes), tail[..n], "", tail);
      RawString(prefix, hashes, tail[..n], false)
  }

  lemma RawPrefixOf(opening: string, body: string, closing: string, tail: string)
    requires body + closing <= tail
    ensures opening + body + closing <= opening + tail
  {
    assert opening + body + closing == opening + (body + closing);
  }

  function Lex(ident: char -> bool, prev: Option<char>, text: string): seq<Token>
    decreases |text|
  {
    if text == "" then []
    else
      var t := First(ident, prev, text);
      [t] + Lex(ident, LastChar(t), text[|Render(t)|..])
  }
}
