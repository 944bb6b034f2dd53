/**
 The scanner itself: index loops over `build.rs` text, proved to report exactly
 the code view and the string literals of the text's token list.
 */
module BuildRsScanner {
  import opened Options
  import opened BuildRsTokens
  import opened BuildRsRoundTrip

  function Prev(text: string, i: nat): Option<char>
    requires i <= |text|
  {
    if i == 0 then None else Some(text[i - 1])
  }

  // ----- One token of progress

  /** The text from `i` on begins with token `t`, which ends at `e`. */
  ghost predicate Splits(ident: char -> bool, text: string, i: nat, t: Token, e: nat)
    requires i <= |text|
  {
    && e <= |text|
    && Lex(ident, Prev(text, i), text[i..]) == [t] + Lex(ident, Prev(text, e), text[e..])
  }

  lemma {:induction false} LexUnfolds(ident: char -> bool, prev: Option<char>, text: string, t: Token)
    requires text != "" && t == First(ident, prev, text)
    ensures Render(t) <= text
    ensures Lex(ident, prev, text) == [t] + Lex(ident, LastChar(t), text[|Render(t)|..])
  {
  }

  lemma SuffixAt(text: string, i: nat, t: Token, e: nat)
    requires i < |text| && Render(t) <= text[i..] && e == i + |Render(t)|
    ensures e <= |text| && text[i..][|Render(t)|..] == text[e..] && LastChar(t) == Prev(text, e)
  {
    assert Render(t)[|Render(t)| - 1] == text[i..][|Render(t)| - 1] == text[e - 1];
  }

  lemma LexStep(ident: char -> bool, text: string, i: nat, t: Token, e: nat)
    requires i < |text| && t == First(ident, Prev(text, i), text[i..]) && e == i + |Render(t)|
    ensures Splits(ident, text, i, t, e)
  {
    LexUnfolds(ident, Prev(text, i), text[i..], t);
    SuffixAt(text, i, t, e);
  }

  function StringOf(t: Token): seq<string> {
    if IsString(t) then [t.body] else []
  }

  /** What has been reported, and what the pending tokens will add to it. */
  ghost predicate Reported(code: string, strings: seq<string>, pending: seq<Token>, all: seq<Token>) {
    && code + CodeView(pending, |strings|) == CodeView(all, 0)
    && strings + Strings(pending) == Strings(all)
  }

  lemma Advance(code: string, strings: seq<string>, t: Token, rest: seq<Token>, all: seq<Token>)
    requires Reported(code, strings, [t] + rest, all)
    ensures Reported(code + CodeOf(t, |strings|), strings + StringOf(t), rest, all)
  {
    ViewCons(t, rest, |strings|);
    Assoc(code, CodeOf(t, |strings|), CodeView(rest, |strings| + |StringOf(t)|));
    Assoc(strings, StringOf(t), Strings(rest));
  }

  lemma {:induction false} ViewCons(t: Token, rest: seq<Token>, k: nat)
    ensures CodeView([t] + rest, k) == CodeOf(t, k) + CodeView(rest, k + |StringOf(t)|)
    ensures Strings([t] + rest) == StringOf(t) + Strings(rest)
  {
    assert ([t] + rest)[1..] == rest;
  }

  lemma Assoc<T>(a: seq<T>, b: seq<T>, c: seq<T>)
    ensures a + (b + c) == (a + b) + c
  {
  }

  // ----- Line comments

  lemma {:induction false} LineLengthIs(text: string, n: nat)
    requires n <= |text| && (forall k :: 0 <= k < n ==> text[k] != '\n') && (n < |text| ==> text[n] == '\n')
    ensures LineLength(text) == n
  {
  }

  method SkipLine(text: string, i: nat) returns (j: nat)
    requires i < |text| && Pair(text[i..], '/', '/')
    ensures i < j && j == i + |Render(ReadLine(text[i..]))|
  {
    j := i;
    while j < |text| && text[j] != '\n'
      invariant i <= j <= |text|
      invariant forall k :: i <= k < j ==> text[k] != '\n'
    {
      j := j + 1;
    }
    assert text[i..][0] == text[i] && text[i..][1] == text[i + 1];
    var body := text[i..][2..];
    assert body == text[i + 2..];
    LineLengthIs(body, j - i - 2);
  }

  // ----- Block comments

  function Span(body: Body): nat {
    |RenderMarks(body.marks)| + if body.closed then 2 else 0
  }

  lemma PrependSpan(m: Mark, body: Body)
    ensures Span(Prepend(m, body)) == |RenderMark(m)| + Span(body)
  {
    RenderMarksCons(m, body.marks);
  }

  lemma PrependNewlines(m: Mark, body: Body)
    ensures Newlines(Prepend(m, body).marks) == NewlineOf(m) + Newlines(body.marks)
  {
    assert ([m] + body.marks)[1..] == body.marks;
  }

  /** The rest of the comment from offset `j`, `depth` levels deep. */
  function Remaining(text: string, j: nat, depth: nat): Body
    requires j <= |text|
  {
    if depth == 0 then Body([], false, "") else ReadMarks(text[j..], depth)
  }

  predicate PairAt(text: string, j: nat, a: char, b: char) {
    j + 1 < |text| && text[j] == a && text[j + 1] == b
  }

  /** The piece of the comment's body at offset `j`. */
  function MarkAt(text: string, j: nat): (m: Mark)
    requires j < |text|
    ensures j + |RenderMark(m)| <= |text|
  {
    if PairAt(text, j, '/', '*') then Open
    else if PairAt(text, j, '*', '/') then Shut
    else Plain(text[j])
  }

  function NewlineOf(m: Mark): string {
    if m == Plain('\n') then "\n" else ""
  }

  lemma PairIsPairAt(text: string, j: nat, a: char, b: char)
    requires j <= |text|
    ensures Pair(text[j..], a, b) == PairAt(text, j, a, b)
  {
  }

  lemma {:induction false} ReadMarksStep(text: string, j: nat, depth: nat)
    requires j < |text| && depth >= 1
    ensures var m := MarkAt(text, j);
            var k := j + |RenderMark(m)|;
            && depth + Delta(m) >= 0
            && ReadMarks(text[j..], depth) ==
                 if depth + Delta(m) == 0 then Body([], true, text[k..])
                 else Prepend(m, ReadMarks(text[k..], depth + Delta(m)))
  {
    PairIsPairAt(text, j, '/', '*');
    PairIsPairAt(text, j, '*', '/');
    var m := MarkAt(text, j);
    assert text[j..][|RenderMark(m)|..] == text[j + |RenderMark(m)|..];
  }

  lemma RemainingSpan(text: string, j: nat, depth: nat, k: nat, deeper: nat)
    requires j < |text| && depth >= 1
    requires k == j + |RenderMark(MarkAt(text, j))| && deeper == depth + Delta(MarkAt(text, j))
    ensures Span(Remaining(text, j, depth)) == k - j + Span(Remaining(text, k, deeper))
  {
    ReadMarksStep(text, j, depth);
    if deeper > 0 { PrependSpan(MarkAt(text, j), ReadMarks(text[k..], deeper)); }
  }

  lemma RemainingLines(text: string, j: nat, depth: nat, k: nat, deeper: nat)
    requires j < |text| && depth >= 1
    requires k == j + |RenderMark(MarkAt(text, j))| && deeper == depth + Delta(MarkAt(text, j))
    ensures Newlines(Remaining(text, j, depth).marks)
              == NewlineOf(MarkAt(text, j)) + Newlines(Remaining(text, k, deeper).marks)
  {
    ReadMarksStep(text, j, depth);
    if deeper > 0 { PrependNewlines(MarkAt(text, j), ReadMarks(text[k..], deeper)); }
  }

  // The same, by offsets: how far the comment reaches and the newlines in it.

  function BlockEnd(text: string, j: nat, depth: nat): (end: nat)
    ensures j <= end && (j <= |text| ==> end <= |text|)
    decreases |text| - j
  {
    if j >= |text| || depth == 0 then j
    else if PairAt(text, j, '/', '*') then BlockEnd(text, j + 2, depth + 1)
    else if PairAt(text, j, '*', '/') then BlockEnd(text, j + 2, depth - 1)
    else BlockEnd(text, j + 1, depth)
  }

  function BlockLines(text: string, j: nat, depth: nat): string
    decreases |text| - j
  {
    if j >= |text| || depth == 0 then ""
    else if PairAt(text, j, '/', '*') then BlockLines(text, j + 2, depth + 1)
    else if PairAt(text, j, '*', '/') then BlockLines(text, j + 2, depth - 1)
    else (if text[j] == '\n' then "\n" else "") + BlockLines(text, j + 1, depth)
  }

  lemma {:induction false} BlockEndStep(text: string, j: nat, depth: nat, k: nat, deeper: nat)
    requires j < |text| && depth >= 1
    requires k == j + |RenderMark(MarkAt(text, j))| && deeper == depth + Delta(MarkAt(text, j))
    ensures BlockEnd(text, j, depth) == BlockEnd(text, k, deeper)
  {
  }

  lemma {:induction false} BlockLinesStep(text: string, j: nat, depth: nat, k: nat, deeper: nat)
    requires j < |text| && depth >= 1
    requires k == j + |RenderMark(MarkAt(text, j))| && deeper == depth + Delta(MarkAt(text, j))
    ensures BlockLines(text, j, depth) == NewlineOf(MarkAt(text, j)) + BlockLines(text, k, deeper)
  {
  }

  lemma {:induction false} EndByOffset(text: string, j: nat, depth: nat)
    requires j <= |text|
    ensures BlockEnd(text, j, depth) == j + Span(Remaining(text, j, depth))
    decreases |text| - j
  {
    if j < |text| && depth > 0 {
      var k, deeper := j + |RenderMark(MarkAt(text, j))|, depth + Delta(MarkAt(text, j));
      EndByOffset(text, k, deeper);
      RemainingSpan(text, j, depth, k, deeper);
      BlockEndStep(text, j, depth, k, deeper);
    } else if j == |text| {
      assert text[j..] == "";
    }
  }

  lemma {:induction false} LinesByOffset(text: string, j: nat, depth: nat)
    requires j <= |text|
    ensures BlockLines(text, j, depth) == Newlines(Remaining(text, j, depth).marks)
    decreases |text| - j
  {
    if j < |text| && depth > 0 {
      var k, deeper := j + |RenderMark(MarkAt(text, j))|, depth + Delta(MarkAt(text, j));
      LinesByOffset(text, k, deeper);
      RemainingLines(text, j, depth, k, deeper);
      BlockLinesStep(text, j, depth, k, deeper);
    } else if j == |text| {
      assert text[j..] == "";
    }
  }

  /** How far the skipping loop has come. */
  datatype Cursor = Cursor(at: nat, depth: nat, code: string)

  function Skipped(text: string, c: Cursor): Cursor {
    if c.at >= |text| || c.depth == 0 then c
    else
      var m := MarkAt(text, c.at);
      Cursor(c.at + |RenderMark(m)|, c.depth + Delta(m), c.code + NewlineOf(m))
  }

  function SkippedBy(text: string, i: nat, n: nat): Cursor {
    if n == 0 then Cursor(i, 1, "") else Skipped(text, SkippedBy(text, i, n - 1))
  }

  lemma {:induction false} SkippedKeeps(text: string, c: Cursor, d: Cursor)
    requires d == Skipped(text, c)
    ensures BlockEnd(text, d.at, d.depth) == BlockEnd(text, c.at, c.depth)
    ensures d.code + BlockLines(text, d.at, d.depth) == c.code + BlockLines(text, c.at, c.depth)
  {
    if c.at < |text| && c.depth > 0 {
      BlockEndStep(text, c.at, c.depth, d.at, d.depth);
      BlockLinesStep(text, c.at, c.depth, d.at, d.depth);
      Assoc(c.code, NewlineOf(MarkAt(text, c.at)), BlockLines(text, d.at, d.depth));
    }
  }

  lemma {:induction false} SkippingKeeps(text: string, i: nat, n: nat)
    ensures var c := SkippedBy(text, i, n);
            && BlockEnd(text, c.at, c.depth) == BlockEnd(text, i, 1)
            && c.code + BlockLines(text, c.at, c.depth) == "" + BlockLines(text, i, 1)
  {
    if n > 0 {
      SkippingKeeps(text, i, n - 1);
      SkippedKeeps(text, SkippedBy(text, i, n - 1), SkippedBy(text, i, n));
    }
  }

  lemma {:induction false} SkippingEnds(text: string, i: nat, n: nat)
    requires var c := SkippedBy(text, i, n); c.at >= |text| || c.depth == 0
    ensures var c := SkippedBy(text, i, n); c.at == BlockEnd(text, i, 1) && c.code == BlockLines(text, i, 1)
  {
    SkippingKeeps(text, i, n);
    var code := SkippedBy(text, i, n).code;
    assert code + "" == code && "" + BlockLines(text, i, 1) == BlockLines(text, i, 1);
  }

  method SkipBlock(text: string, i: nat) returns (j: nat, code: string)
    requires PairAt(text, i, '/', '*')
    ensures j == BlockEnd(text, i + 2, 1)
    ensures code == BlockLines(text, i + 2, 1)
  {
    code := "";
    var depth := 1;
    j := i + 2;
    ghost var n := 0;
    while j < |text| && depth > 0
      invariant i + 2 <= j <= |text|
      invariant SkippedBy(text, i + 2, n) == Cursor(j, depth, code)
      decreases |text| - j
    {
      assert code + "" == code;
      if text[j] == '/' && j + 1 < |text| && text[j + 1] == '*' {
        depth := depth + 1;
        j := j + 2;
      } else if text[j] == '*' && j + 1 < |text| && text[j + 1] == '/' {
        depth := depth - 1;
        j := j + 2;
      } else {
        if text[j] == '\n' { code := code + "\n"; }
        j := j + 1;
      }
      n := n + 1;
    }
    SkippingEnds(text, i + 2, n);
  }

  lemma {:induction false} BlockToken(text: string, i: nat)
    requires PairAt(text, i, '/', '*')
    ensures Pair(text[i..], '/', '*')
    ensures i + |Render(ReadBlock(text[i..]))| == BlockEnd(text, i + 2, 1)
    ensures Newlines(ReadBlock(text[i..]).marks) == BlockLines(text, i + 2, 1)
  {
    assert text[i..][2..] == text[i + 2..];
    EndByOffset(text, i + 2, 1);
    LinesByOffset(text, i + 2, 1);
  }

  // ----- String literals

  function Clamp(text: string, j: nat): (k: nat)
    ensures k <= |text|
  {
    if j <= |text| then j else |text|
  }

  /** Offset of the quote that closes the string body at `j`, or the end. */
  function StringEnd(text: string, j: nat): (end: nat)
    ensures end <= |text| && (j <= |text| ==> j <= end)
    decreases |text| - j
  {
    if j >= |text| then |text|
    else if text[j] == '"' then j
    else if text[j] == '\\' then StringEnd(text, j + 2)
    else StringEnd(text, j + 1)
  }

  lemma {:induction false} StringByOffset(text: string, j: nat)
    requires j <= |text|
    ensures StringEnd(text, j) == j + StringLength(text[j..])
    decreases |text| - j
  {
    var rest := text[j..];
    if j < |text| && text[j] != '"' {
      if text[j] != '\\' {
        StringByOffset(text, j + 1);
        assert rest[1..] == text[j + 1..];
      } else if j + 2 <= |text| {
        StringByOffset(text, j + 2);
        assert rest[2..] == text[j + 2..];
      }
    }
  }

  method ScanString(text: string, i: nat) returns (j: nat, value: string)
    requires i < |text| && text[i] == '"'
    ensures j <= |text| + 1 && Clamp(text, j) == StringEnd(text, i + 1)
    ensures value == text[i + 1..StringEnd(text, i + 1)]
  {
    j := i + 1;
    value := "";
    while j < |text| && text[j] != '"'
      invariant i + 1 <= j <= |text| + 1
      invariant StringEnd(text, j) == StringEnd(text, i + 1)
      invariant value == text[i + 1..Clamp(text, j)]
      decreases |text| + 1 - j
    {
      if text[j] == '\\' {
        value := value + text[j..if j + 2 <= |text| then j + 2 else |text|];
        j := j + 2;
        continue;
      }
      value := value + [text[j]];
      j := j + 1;
    }
  }

  // ----- Raw strings

  datatype RawStart = RawStart(bodyStart: nat, hashes: nat)

  lemma {:induction false} HashCountIs(text: string, n: nat)
    requires n <= |text| && (forall k :: 0 <= k < n ==> text[k] == '#') && (n < |text| ==> text[n] != '#')
    ensures HashCount(text) == n
  {
  }

  method RawStringStart(text: string, i: nat) returns (r: Option<RawStart>)
    requires i < |text|
    ensures r.Some? <==> ReadRawOpening(text[i..]).Some?
    ensures r.Some? ==>
              var (prefix, hashes) := ReadRawOpening(text[i..]).value;
              r.value == RawStart(i + |RawOpening(prefix, hashes)|, hashes)
  {
    var j := i;
    if text[j] == 'b' || text[j] == 'c' { j := j + 1; }
    ghost var p := j - i;
    ghost var rest := text[i..];
    assert p < |rest| ==> rest[p] == text[j];
    if j >= |text| || text[j] != 'r' { return None; }
    j := j + 1;
    var hashes := 0;
    while j < |text| && text[j] == '#'
      invariant i + p + 1 <= j <= |text| && j == i + p + 1 + hashes
      invariant forall k :: i + p + 1 <= k < j ==> text[k] == '#'
    {
      hashes := hashes + 1;
      j := j + 1;
    }
    assert rest[p + 1..] == text[i + p + 1..];
    HashCountIs(rest[p + 1..], hashes);
    if j < |text| && text[j] == '"' { r := Some(RawStart(j + 1, hashes)); } else { r := None; }
  }

  method ScanRaw(text: string, i: nat, raw: RawStart) returns (j: nat, value: string)
    requires i < |text| && ReadRawOpening(text[i..]).Some?
    requires var (prefix, hashes) := ReadRawOpening(text[i..]).value;
             raw == RawStart(i + |RawOpening(prefix, hashes)|, hashes) && raw.bodyStart <= |text|
    ensures value == ReadRaw(text[i..]).body && j == i + |Render(ReadRaw(text[i..]))|
  {
    var close := RawClosing(raw.hashes);
    var end := raw.bodyStart + Find(close, text[raw.bodyStart..]);
    value := text[raw.bodyStart..end];
    j := if end == |text| then |text| else end + |close|;
    ghost var (prefix, hashes) := ReadRawOpening(text[i..]).value;
    assert text[i..][|RawOpening(prefix, hashes)|..] == text[raw.bodyStart..];
    assert text[raw.bodyStart..][..end - raw.bodyStart] == value;
  }

  // ----- Character literals and lifetimes

  method CharLiteralEnd(text: string, i: nat) returns (end: int)
    requires i < |text| && text[i] == '\''
    ensures end == -1 <==> ReadChar(text[i..]).None?
    ensures end != -1 ==> end == i + |ReadChar(text[i..]).value| + 2
  {
    ghost var rest := text[i..];
    assert forall k :: 0 <= k < |rest| ==> rest[k] == text[i + k];
    if i + 1 < |text| && text[i + 1] == '\\' {
      var j := i + 3;
      while j < |text| && j < i + 12
        invariant i + 3 <= j <= i + 12
        invariant forall k :: i + 3 <= k < j && k < |text| ==> text[k] != '\''
      {
        if text[j] == '\'' {
          QuoteFound(rest, 3, 12, j - i);
          return j + 1;
        }
        j := j + 1;
      }
      assert forall k :: 3 <= k < 12 && k < |rest| ==> rest[k] != '\'';
      return -1;
    }
    end := if i + 2 < |text| && text[i + 2] == '\'' then i + 3 else -1;
  }

  // ----- The scanner

  /** Offset `j`, code `code` and literals `found` are what token `t` at `i` calls for. */
  predicate Turn(t: Token, text: string, i: nat, k: nat, j: nat, code: string, found: seq<string>) {
    Clamp(text, j) == i + |Render(t)| && code == CodeOf(t, k) && found == StringOf(t)
  }

  ghost predicate Heads(ident: char -> bool, text: string, i: nat, t: Token)
    requires i < |text|
  {
    t == First(ident, Prev(text, i), text[i..])
  }

  lemma LineTurn(ident: char -> bool, text: string, i: nat, k: nat) returns (t: Token)
    requires PairAt(text, i, '/', '/')
    ensures Pair(text[i..], '/', '/') && Heads(ident, text, i, t)
    ensures Turn(t, text, i, k, i + |Render(ReadLine(text[i..]))|, "", [])
  {
    t := ReadLine(text[i..]);
  }

  lemma BlockTurn(ident: char -> bool, text: string, i: nat, k: nat) returns (t: Token)
    requires PairAt(text, i, '/', '*')
    ensures Heads(ident, text, i, t)
    ensures Turn(t, text, i, k, BlockEnd(text, i + 2, 1), BlockLines(text, i + 2, 1), [])
  {
    t := ReadBlock(text[i..]);
    BlockToken(text, i);
  }

  lemma RawHeads(ident: char -> bool, text: string, i: nat)
    requires i < |text| && !AfterIdent(ident, Prev(text, i)) && ReadRawOpening(text[i..]).Some?
    ensures Heads(ident, text, i, ReadRaw(text[i..]))
  {
    var (prefix, hashes) := ReadRawOpening(text[i..]).value;
    RawLetter(prefix, hashes, text[i..][|RawOpening(prefix, hashes)|..]);
    assert text[i..] == RawOpening(prefix, hashes) + text[i..][|RawOpening(prefix, hashes)|..];
  }

  lemma RawTurn(ident: char -> bool, text: string, i: nat, k: nat) returns (t: Token)
    requires i < |text| && !AfterIdent(ident, Prev(text, i)) && ReadRawOpening(text[i..]).Some?
    ensures Heads(ident, text, i, t)
    ensures Turn(t, text, i, k, i + |Render(ReadRaw(text[i..]))|, Placeholder(k), [ReadRaw(text[i..]).body])
  {
    t := ReadRaw(text[i..]);
    RawHeads(ident, text, i);
  }

  lemma StringHeads(ident: char -> bool, text: string, i: nat)
    requires i < |text| && text[i] == '"'
    ensures var n := StringLength(text[i + 1..]);
            Heads(ident, text, i, Str(text[i + 1..][..n], n < |text| - i - 1))
  {
    assert text[i..] == "\"" + text[i + 1..];
    ReadStringOf(ident, Prev(text, i), text[i + 1..]);
  }

  lemma StringTurn(ident: char -> bool, text: string, i: nat, k: nat, j: nat) returns (t: Token)
    requires i < |text| && text[i] == '"' && Clamp(text, j) == StringEnd(text, i + 1)
    ensures Heads(ident, text, i, t)
    ensures Turn(t, text, i, k, j + 1, Placeholder(k), [text[i + 1..StringEnd(text, i + 1)]])
  {
    var n, end := StringLength(text[i + 1..]), StringEnd(text, i + 1);
    t := Str(text[i + 1..][..n], n < |text| - i - 1);
    StringHeads(ident, text, i);
    StringByOffset(text, i + 1);
    assert text[i + 1..][..n] == text[i + 1..end];
  }

  lemma CharTurn(ident: char -> bool, text: string, i: nat, k: nat) returns (t: Token)
    requires i < |text| && text[i] == '\'' && ReadChar(text[i..]).Some?
    ensures Heads(ident, text, i, t)
    ensures Turn(t, text, i, k, i + |ReadChar(text[i..]).value| + 2, "", [])
  {
    NotRaw(text[i..]);
    t := First(ident, Prev(text, i), text[i..]);
  }

  lemma CodeTurn(ident: char -> bool, text: string, i: nat, k: nat) returns (t: Token)
    requires i < |text| && !PairAt(text, i, '/', '/') && !PairAt(text, i, '/', '*') && text[i] != '"'
    requires AfterIdent(ident, Prev(text, i)) || ReadRawOpening(text[i..]).None?
    requires text[i] == '\'' ==> ReadChar(text[i..]).None?
    ensures Heads(ident, text, i, t)
    ensures Turn(t, text, i, k, i + 1, [text[i]], [])
  {
    t := Code(text[i]);
  }

  /** One turn of the scanner's loop. */
  method NextToken(ident: char -> bool, text: string, i: nat, k: nat)
    returns (j: nat, code: string, found: seq<string>, ghost t: Token)
    requires i < |text|
    ensures i < j <= |text| + 2 && Heads(ident, text, i, t) && Turn(t, text, i, k, j, code, found)
  {
    var c := text[i];
    code, found := "", [];
    if c == '/' && i + 1 < |text| && text[i + 1] == '/' {
      t := LineTurn(ident, text, i, k);
      j := SkipLine(text, i);
      return;
    }
    if c == '/' && i + 1 < |text| && text[i + 1] == '*' {
      t := BlockTurn(ident, text, i, k);
      j, code := SkipBlock(text, i);
      return;
    }
    var raw: Option<RawStart> := None;
    if i == 0 || !ident(text[i - 1]) { raw := RawStringStart(text, i); }
    if raw.Some? {
      t := RawTurn(ident, text, i, k);
      var value: string;
      j, value := ScanRaw(text, i, raw.value);
      code, found := Placeholder(k), [value];
      return;
    }
    if c == '"' {
      var value: string;
      j, value := ScanString(text, i);
      t := StringTurn(ident, text, i, k, j);
      j := j + 1;
      code, found := Placeholder(k), [value];
      return;
    }
    if c == '\'' {
      var end := CharLiteralEnd(text, i);
      if end != -1 {
        t := CharTurn(ident, text, i, k);
        j := end;
        return;
      }
    }
    t := CodeTurn(ident, text, i, k);
    code := [c];
    j := i + 1;
  }

  /** The tokens from offset `i` on. */
  ghost function Suffix(ident: char -> bool, text: string, i: nat): seq<Token> {
    Lex(ident, Prev(text, Clamp(text, i)), text[Clamp(text, i)..])
  }

  lemma SplitsSuffix(ident: char -> bool, text: string, i: nat, t: Token, j: nat)
    requires i < |text| && Splits(ident, text, i, t, Clamp(text, j))
    ensures Suffix(ident, text, i) == [t] + Suffix(ident, text, j)
  {
  }

  lemma {:induction false} SuffixEnds(ident: char -> bool, text: string)
    ensures Suffix(ident, text, 0) == Lex(ident, None, text)
    ensures forall i: nat :: i >= |text| ==> Suffix(ident, text, i) == []
  {
    assert text[0..] == text;
  }

  /** `tokenize`: for every text, exactly the code view and string literals of its
      one token list. */
  method Tokenize(ident: char -> bool, text: string) returns (code: string, strings: seq<string>)
    ensures code == CodeView(Lex(ident, None, text), 0)
    ensures strings == Strings(Lex(ident, None, text))
  {
    strings, code := [], "";
    var i := 0;
    ghost var all := Lex(ident, None, text);
    SuffixEnds(ident, text);
    while i < |text|
      invariant i <= |text| + 2
      invariant Reported(code, strings, Suffix(ident, text, i), all)
      decreases |text| + 2 - i
    {
      ghost var t;
      var j, piece, found;
      j, piece, found, t := NextToken(ident, text, i, |strings|);
      LexStep(ident, text, i, t, Clamp(text, j));
      SplitsSuffix(ident, text, i, t, j);
      Advance(code, strings, t, Suffix(ident, text, j), all);
      code := code + piece;
      strings := strings + found;
      i := j;
    }
  }
}
