/**
 Lexing and rendering undo each other: `LexRenders` and `LexIsReadable` for
 every text, `LexReadsBack` for every readable token list.
 */
module BuildRsRoundTrip {
  import opened Options
  import opened BuildRsTokens

  // ----- Block comments

  lemma {:induction false} DepthCons(m: Mark, marks: seq<Mark>)
    ensures Depth([m] + marks) == Delta(m) + Depth(marks)
  {
    var all := [m] + marks;
    if marks == [] {
      assert all[..0] == [];
      assert Depth(all) == Depth(all[..0]) + Delta(m);
    } else {
      assert all[..|all| - 1] == [m] + marks[..|marks| - 1];
      DepthCons(m, marks[..|marks| - 1]);
    }
  }

  /** `StaysOpen` for a body that starts `depth` levels deep. */
  ghost predicate StaysAbove(marks: seq<Mark>, depth: nat) {
    forall k :: 0 <= k <= |marks| ==> Depth(marks[..k]) + depth - 1 >= 1
  }

  lemma StaysAboveCons(m: Mark, marks: seq<Mark>, depth: nat)
    requires depth >= 1 && depth + Delta(m) >= 1
    requires StaysAbove(marks, depth + Delta(m))
    ensures StaysAbove([m] + marks, depth)
  {
    var all := [m] + marks;
    forall k | 0 <= k <= |all| ensures Depth(all[..k]) + depth - 1 >= 1 {
      if k > 0 {
        assert all[..k] == [m] + marks[..k - 1];
        DepthCons(m, marks[..k - 1]);
      }
    }
  }

  lemma StaysAboveTail(m: Mark, marks: seq<Mark>, depth: nat)
    requires depth >= 1 && StaysAbove([m] + marks, depth)
    ensures depth + Delta(m) >= 1 && StaysAbove(marks, depth + Delta(m))
  {
    var all := [m] + marks;
    assert forall k :: 0 <= k <= |marks| ==> all[..k + 1] == [m] + marks[..k];
    forall k | 0 <= k <= |marks| ensures Depth(marks[..k]) + depth + Delta(m) - 1 >= 1 {
      DepthCons(m, marks[..k]);
      assert Depth(all[..k + 1]) + depth - 1 >= 1;
    }
    assert marks[..0] == [];
  }

  lemma {:induction false} StrayCons(m: Mark, marks: seq<Mark>, rest: string)
    requires NoStrayDelimiter(marks, rest)
    requires m == Plain('/') ==> !Begins(RenderMarks(marks) + rest, '*')
    requires m == Plain('*') ==> !Begins(RenderMarks(marks) + rest, '/')
    ensures NoStrayDelimiter([m] + marks, rest)
  {
    var all := [m] + marks;
    assert forall k :: 0 <= k < |all| ==> all[k + 1..] == marks[k..];
    assert marks[0..] == marks;
  }

  lemma {:induction false} StrayTail(m: Mark, marks: seq<Mark>, rest: string)
    requires NoStrayDelimiter([m] + marks, rest)
    ensures NoStrayDelimiter(marks, rest)
    ensures m == Plain('/') ==> !Begins(RenderMarks(marks) + rest, '*')
    ensures m == Plain('*') ==> !Begins(RenderMarks(marks) + rest, '/')
  {
    var all := [m] + marks;
    assert all[0] == m && all[1..] == marks;
    assert forall k :: 0 <= k < |marks| ==> all[k + 1] == marks[k] && all[k + 1 + 1..] == marks[k + 1..];
  }

  function Closer(body: Body): string {
    (if body.closed then "*/" else "") + body.rest
  }

  ghost predicate GoodBody(body: Body, depth: nat) {
    && StaysAbove(body.marks, depth)
    && NoStrayDelimiter(body.marks, Closer(body))
    && (if body.closed then Depth(body.marks) + depth - 1 == 1 else body.rest == "")
  }

  lemma {:induction false} ReadMarksGood(text: string, depth: nat)
    requires depth >= 1
    ensures GoodBody(ReadMarks(text, depth), depth)
    decreases |text|
  {
    if text == "" {
    } else if Pair(text, '/', '*') {
      ReadMarksGood(text[2..], depth + 1);
      PrependGood(Open, ReadMarks(text[2..], depth + 1), depth);
    } else if Pair(text, '*', '/') {
      if depth > 1 {
        ReadMarksGood(text[2..], depth - 1);
        PrependGood(Shut, ReadMarks(text[2..], depth - 1), depth);
      }
    } else {
      ReadMarksGood(text[1..], depth);
      ReadMarksRenders(text[1..], depth);
      PrependGood(Plain(text[0]), ReadMarks(text[1..], depth), depth);
    }
  }

  lemma PrependGood(m: Mark, body: Body, depth: nat)
    requires depth >= 1 && depth + Delta(m) >= 1
    requires GoodBody(body, depth + Delta(m))
    requires m == Plain('/') ==> !Begins(RenderBody(body), '*')
    requires m == Plain('*') ==> !Begins(RenderBody(body), '/')
    ensures GoodBody(Prepend(m, body), depth)
  {
    StaysAboveCons(m, body.marks, depth);
    StrayCons(m, body.marks, Closer(body));
    DepthCons(m, body.marks);
  }

  lemma {:induction false} OneMark(m: Mark, after: string, depth: nat)
    requires depth >= 1 && depth + Delta(m) >= 1
    requires m == Plain('/') ==> !Begins(after, '*')
    requires m == Plain('*') ==> !Begins(after, '/')
    ensures ReadMarks(RenderMark(m) + after, depth) == Prepend(m, ReadMarks(after, depth + Delta(m)))
  {
    var text := RenderMark(m) + after;
    match m
    case Open => assert text[2..] == after;
    case Shut => assert text[2..] == after;
    case Plain(c) =>
      assert text[1..] == after;
      assert |text| >= 2 ==> text[1] == after[0];
  }

  lemma {:induction false} ReadMarksBack(body: Body, depth: nat)
    requires depth >= 1 && GoodBody(body, depth)
    ensures ReadMarks(RenderBody(body), depth) == body
    decreases |body.marks|
  {
    if body.marks == [] {
      assert RenderBody(body) == Closer(body);
      if body.closed { assert Closer(body)[2..] == body.rest; }
    } else {
      var m, tail := body.marks[0], body.(marks := body.marks[1..]);
      assert body == Prepend(m, tail);
      PrependRenders(m, tail);
      GoodTail(m, tail, depth);
      ReadMarksBack(tail, depth + Delta(m));
      OneMark(m, RenderBody(tail), depth);
    }
  }

  lemma GoodTail(m: Mark, tail: Body, depth: nat)
    requires depth >= 1 && GoodBody(Prepend(m, tail), depth)
    ensures depth + Delta(m) >= 1 && GoodBody(tail, depth + Delta(m))
    ensures m == Plain('/') ==> !Begins(RenderBody(tail), '*')
    ensures m == Plain('*') ==> !Begins(RenderBody(tail), '/')
  {
    StaysAboveTail(m, tail.marks, depth);
    StrayTail(m, tail.marks, Closer(tail));
    DepthCons(m, tail.marks);
  }

  // ----- Openings and ends of the other literals

  lemma {:induction false} HashCountOf(n: nat, rest: string)
    requires rest == "" || rest[0] != '#'
    ensures HashCount(Hashes(n) + rest) == n
  {
    var text := Hashes(n) + rest;
    assert rest != "" ==> text[n] == rest[0];
    assert forall i :: 0 <= i < n ==> text[i] == '#';
  }

  lemma RawOpeningShape(prefix: string, hashes: nat, text: string)
    requires RawOpening(prefix, hashes) <= text
    ensures var j := |prefix|;
            && |text| >= j + hashes + 2 && text[..j] == prefix && text[j] == 'r' && text[j + 1 + hashes] == '"'
            && text[j + 1..] == Hashes(hashes) + text[j + 1 + hashes..]
  {
    var j, opening := |prefix|, RawOpening(prefix, hashes);
    assert forall k :: 0 <= k < |opening| ==> text[k] == opening[k];
    assert text[j + 1..j + 1 + hashes] == Hashes(hashes);
  }

  lemma RawOpeningRead(prefix: string, hashes: nat, text: string)
    requires RawPrefix(prefix) && RawOpening(prefix, hashes) <= text
    ensures ReadRawOpening(text) == Some((prefix, hashes))
  {
    var j := |prefix|;
    RawOpeningShape(prefix, hashes, text);
    HashCountOf(hashes, text[j + 1 + hashes..]);
  }

  lemma {:induction false} QuoteFound(text: string, from: nat, limit: nat, at: nat)
    requires from <= at < limit && at < |text| && text[at] == '\''
    requires forall k :: from <= k < at ==> text[k] != '\''
    ensures QuoteFrom(text, from, limit) == Some(at)
  {
  }

  lemma CharRead(body: string, text: string)
    requires CharBody(body) && "'" + body + "'" <= text
    ensures ReadChar(text) == Some(body)
  {
    assert text[1..|body| + 1] == body;
    if |body| > 1 || body[0] == '\\' {
      assert forall k :: 3 <= k < |body| + 1 ==> text[k] == body[2..][k - 3];
      QuoteFound(text, 3, 12, |body| + 1);
    }
  }

  lemma {:induction false} StringEnds(text: string)
    ensures var n := StringLength(text);
            || StringBody(text[..n])
            || (n == |text| > 0 && text[n - 1] == '\\' && StringBody(text[..n - 1]))
    decreases |text|
  {
    var n := StringLength(text);
    if text == "" || text[0] == '"' {
    } else if text[0] == '\\' {
      if |text| >= 2 {
        StringEnds(text[2..]);
        assert text[..n][2..] == text[2..][..n - 2];
        if n == |text| > 2 { assert text[..n - 1][2..] == text[2..][..n - 3]; }
      }
    } else {
      StringEnds(text[1..]);
      assert text[..n][1..] == text[1..][..n - 1];
      if n == |text| > 1 { assert text[..n - 1][1..] == text[1..][..n - 2]; }
    }
  }

  lemma {:induction false} StringRead(body: string, rest: string)
    requires StringBody(body) && (rest == "" || rest == "\\" || rest[0] == '"')
    ensures StringLength(body + rest) == |body| + (if rest == "\\" then 1 else 0)
    decreases |body|
  {
    if body == "" {
      assert body + rest == rest;
      EndLength(rest);
    } else if body[0] == '\\' {
      StringRead(body[2..], rest);
      EscapeLength(body, rest);
    } else {
      StringRead(body[1..], rest);
      PlainLength(body, rest);
    }
  }

  lemma {:induction false} EndLength(rest: string)
    requires rest == "" || rest == "\\" || rest[0] == '"'
    ensures StringLength(rest) == if rest == "\\" then 1 else 0
  {
  }

  lemma {:induction false} EscapeLength(body: string, rest: string)
    requires |body| >= 2 && body[0] == '\\'
    ensures StringLength(body + rest) == 2 + StringLength(body[2..] + rest)
  {
    assert (body + rest)[2..] == body[2..] + rest;
  }

  lemma {:induction false} PlainLength(body: string, rest: string)
    requires body != "" && body[0] != '\\' && body[0] != '"'
    ensures StringLength(body + rest) == 1 + StringLength(body[1..] + rest)
  {
    assert (body + rest)[1..] == body[1..] + rest;
  }

  lemma FindAt(marker: string, text: string, k: nat)
    requires k <= |text| && AbsentBefore(marker, text, k)
    requires k == |text| || Occurs(marker, text, k)
    ensures Find(marker, text) == k
  {
    assert Find(marker, text) <= |text|;
  }

  // ----- The first token of a text fits it

  lemma LineFits(ident: char -> bool, prev: Option<char>, text: string)
    requires Pair(text, '/', '/')
    ensures Fits(ident, prev, ReadLine(text), text[|Render(ReadLine(text))|..])
  {
    var n := LineLength(text[2..]);
    assert text[2 + n..] == text[2..][n..];
  }

  lemma BlockFits(ident: char -> bool, prev: Option<char>, text: string)
    requires Pair(text, '/', '*')
    ensures Fits(ident, prev, ReadBlock(text), text[|Render(ReadBlock(text))|..])
  {
    var body := ReadMarks(text[2..], 1);
    BlockRest(text, body);
    ReadMarksGood(text[2..], 1);
    BodyFits(ident, prev, body);
  }

  lemma BlockRest(text: string, body: Body)
    requires Pair(text, '/', '*') && body == ReadMarks(text[2..], 1)
    ensures var n := |Render(BlockComment(body.marks, body.closed))|;
            n <= |text| && text[n..] == body.rest
  {
    ReadMarksRenders(text[2..], 1);
    var inner := RenderMarks(body.marks) + (if body.closed then "*/" else "");
    assert text[2..] == inner + body.rest;
    assert text[2 + |inner|..] == body.rest;
  }

  lemma BodyFits(ident: char -> bool, prev: Option<char>, body: Body)
    requires GoodBody(body, 1)
    ensures Fits(ident, prev, BlockComment(body.marks, body.closed), body.rest)
  {
    assert Closer(body) == if body.closed then "*/" + body.rest else body.rest;
  }

  lemma RawFits(ident: char -> bool, prev: Option<char>, text: string)
    requires ReadRawOpening(text).Some? && !AfterIdent(ident, prev)
    ensures Fits(ident, prev, ReadRaw(text), text[|Render(ReadRaw(text))|..])
  {
    var (prefix, hashes) := ReadRawOpening(text).value;
    var opening, closing := RawOpening(prefix, hashes), RawClosing(hashes);
    var tail := text[|opening|..];
    assert text == opening + tail;
    FindSplits(closing, tail);
    RawFitsTail(ident, prev, prefix, hashes, tail);
    RestOfRaw(opening, tail, Find(closing, tail), closing);
  }

  lemma FindSplits(marker: string, tail: string)
    ensures var n := Find(marker, tail);
            n < |tail| ==> n + |marker| <= |tail| && tail == tail[..n] + marker + tail[n + |marker|..]
  {
    var n := Find(marker, tail);
    if n < |tail| {
      assert tail == tail[..n] + tail[n..n + |marker|] + tail[n + |marker|..];
    }
  }

  lemma RestOfRaw(opening: string, tail: string, n: nat, closing: string)
    requires n <= |tail| && (n < |tail| ==> n + |closing| <= |tail|)
    ensures n < |tail| ==> (opening + tail)[|opening + tail[..n] + closing|..] == tail[n + |closing|..]
    ensures n == |tail| ==> (opening + tail)[|opening + tail[..n] + ""|..] == ""
  {
  }

  lemma RawFitsTail(ident: char -> bool, prev: Option<char>, prefix: string, hashes: nat, tail: string)
    requires RawPrefix(prefix) && !AfterIdent(ident, prev)
    ensures var closing := RawClosing(hashes);
            var n := Find(closing, tail);
            Fits(ident, prev, RawString(prefix, hashes, tail[..n], n < |tail|),
                 if n < |tail| && n + |closing| <= |tail| then tail[n + |closing|..] else "")
  {
    var closing := RawClosing(hashes);
    var n := Find(closing, tail);
    FindSplits(closing, tail);
    if n == |tail| { assert tail[..n] == tail; }
  }

  lemma StringFits(ident: char -> bool, prev: Option<char>, text: string)
    requires Begins(text, '"')
    ensures Fits(ident, prev, ReadString(text), text[|Render(ReadString(text))|..])
  {
    StringEnds(text[1..]);
    var n := StringLength(text[1..]);
    var body := text[1..][..n];
    if n > 0 { assert body[..n - 1] == text[1..][..n - 1]; }
  }

  lemma CodeFits(ident: char -> bool, prev: Option<char>, text: string)
    requires text != "" && First(ident, prev, text) == Code(text[0])
    ensures Fits(ident, prev, Code(text[0]), text[1..])
  {
    assert [text[0]] + text[1..] == text;
    forall prefix, hashes: nat | RawPrefix(prefix) && RawOpening(prefix, hashes) <= text
      ensures ReadRawOpening(text).Some?
    {
      RawOpeningRead(prefix, hashes, text);
    }
    forall body | CharBody(body) && "'" + body + "'" <= text
      ensures ReadChar(text).Some?
    {
      CharRead(body, text);
    }
  }

  lemma FirstFits(ident: char -> bool, prev: Option<char>, text: string)
    requires text != ""
    ensures Fits(ident, prev, First(ident, prev, text), text[|Render(First(ident, prev, text))|..])
  {
    if Pair(text, '/', '/') { LineFits(ident, prev, text); }
    else if Pair(text, '/', '*') { BlockFits(ident, prev, text); }
    else if !AfterIdent(ident, prev) && ReadRawOpening(text).Some? { RawFits(ident, prev, text); }
    else if text[0] == '"' { StringFits(ident, prev, text); }
    else if ReadChar(text).None? { CodeFits(ident, prev, text); }
  }

  // ----- A token that fits is the first token

  lemma FitsIsFirst(ident: char -> bool, prev: Option<char>, t: Token, rest: string)
    requires Fits(ident, prev, t, rest)
    ensures First(ident, prev, Render(t) + rest) == t
  {
    match t
    case Code(c) => CodeIsFirst(ident, prev, c, rest);
    case LineComment(body) =>
      LineIsFirst(body, rest);
      assert Pair(Render(t) + rest, '/', '/');
    case BlockComment(marks, closed) =>
      BlockIsFirst(ident, prev, marks, closed, rest);
      assert Pair(Render(t) + rest, '/', '*');
    case RawString(prefix, hashes, body, closed) => RawIsFirst(ident, prev, t, rest);
    case Str(body, closed) => StringIsFirst(ident, prev, t, rest);
    case CharLit(body) => CharIsFirst(ident, prev, body, rest);
  }

  lemma CharIsFirst(ident: char -> bool, prev: Option<char>, body: string, rest: string)
    requires CharBody(body)
    ensures First(ident, prev, Render(CharLit(body)) + rest) == CharLit(body)
  {
    var text := Render(CharLit(body)) + rest;
    assert text[0] == '\'';
    NotRaw(text);
    CharRead(body, text);
  }

  lemma CodeIsFirst(ident: char -> bool, prev: Option<char>, c: char, rest: string)
    requires Fits(ident, prev, Code(c), rest)
    ensures First(ident, prev, [c] + rest) == Code(c)
  {
    RawOpens([c] + rest);
    CharOpens([c] + rest);
  }

  lemma RawOpens(text: string)
    ensures ReadRawOpening(text).Some? ==> OpensRaw(text)
  {
  }

  lemma CharOpens(text: string)
    ensures ReadChar(text).Some? ==> OpensChar(text)
  {
  }

  lemma LineIsFirst(body: string, rest: string)
    requires '\n' !in body && (rest == "" || rest[0] == '\n')
    ensures ReadLine("//" + body + rest) == LineComment(body)
  {
    var text := "//" + body + rest;
    assert text[2..] == body + rest;
    var n := LineLength(text[2..]);
    assert forall k :: 0 <= k < |body| ==> text[2..][k] == body[k];
    assert rest != "" ==> text[2..][|body|] == rest[0];
  }

  lemma BlockIsFirst(ident: char -> bool, prev: Option<char>, marks: seq<Mark>, closed: bool, rest: string)
    requires Fits(ident, prev, BlockComment(marks, closed), rest)
    ensures ReadBlock(Render(BlockComment(marks, closed)) + rest) == BlockComment(marks, closed)
  {
    var text := Render(BlockComment(marks, closed)) + rest;
    var body := Body(marks, closed, rest);
    assert text[2..] == RenderBody(body);
    assert StaysAbove(marks, 1);
    assert Closer(body) == if closed then "*/" + rest else rest;
    ReadMarksBack(body, 1);
  }

  lemma RawIsFirst(ident: char -> bool, prev: Option<char>, t: Token, rest: string)
    requires t.RawString? && Fits(ident, prev, t, rest)
    ensures First(ident, prev, Render(t) + rest) == t
  {
    var closing := RawClosing(t.hashes);
    var tail := if t.closed then t.body + closing + rest else t.body;
    var text := RawOpening(t.prefix, t.hashes) + tail;
    assert Render(t) + rest == text;
    assert t.closed ==> tail[|t.body|..|t.body| + |closing|] == closing;
    FindAt(closing, tail, |t.body|);
    assert tail[..|t.body|] == t.body;
    ReadRawOf(t.prefix, t.hashes, tail);
    RawLetter(t.prefix, t.hashes, tail);
  }

  lemma RawLetter(prefix: string, hashes: nat, tail: string)
    requires RawPrefix(prefix)
    ensures RawOpening(prefix, hashes) + tail != "" && (RawOpening(prefix, hashes) + tail)[0] in {'r', 'b', 'c'}
  {
    var text := RawOpening(prefix, hashes) + tail;
    assert prefix == "" ==> text[0] == 'r';
    assert prefix != "" ==> text[0] == prefix[0];
  }

  lemma ReadRawOf(prefix: string, hashes: nat, tail: string)
    requires RawPrefix(prefix)
    ensures var text := RawOpening(prefix, hashes) + tail;
            var n := Find(RawClosing(hashes), tail);
            && ReadRawOpening(text) == Some((prefix, hashes))
            && ReadRaw(text) == RawString(prefix, hashes, tail[..n], n < |tail|)
  {
    var text := RawOpening(prefix, hashes) + tail;
    RawOpeningRead(prefix, hashes, text);
    assert text[|RawOpening(prefix, hashes)|..] == tail;
  }

  lemma StringIsFirst(ident: char -> bool, prev: Option<char>, t: Token, rest: string)
    requires t.Str? && Fits(ident, prev, t, rest)
    ensures First(ident, prev, Render(t) + rest) == t
  {
    var tail := if t.closed then t.body + ("\"" + rest) else t.body;
    assert Render(t) + rest == "\"" + tail;
    ReadStringOf(ident, prev, tail);
    StringTail(t, rest);
    assert tail[..|t.body|] == t.body;
  }

  lemma {:induction false} ReadStringOf(ident: char -> bool, prev: Option<char>, tail: string)
    ensures var n := StringLength(tail);
            First(ident, prev, "\"" + tail) == Str(tail[..n], n < |tail|)
  {
    var text := "\"" + tail;
    assert text[1..] == tail;
    assert First(ident, prev, text) == ReadString(text) by {
      NotRaw(text);
    }
  }

  lemma NotRaw(text: string)
    requires text != "" && text[0] != 'r' && text[0] != 'b' && text[0] != 'c'
    ensures ReadRawOpening(text).None?
  {
  }

  lemma {:induction false} StringTail(t: Token, rest: string)
    requires t.Str?
    requires if t.closed then StringBody(t.body)
             else StringBody(t.body) || (t.body != "" && t.body[|t.body| - 1] == '\\' && StringBody(t.body[..|t.body| - 1]))
    ensures StringLength(if t.closed then t.body + ("\"" + rest) else t.body) == |t.body|
  {
    if t.closed {
      StringRead(t.body, "\"" + rest);
    } else if StringBody(t.body) {
      StringRead(t.body, "");
      assert t.body + "" == t.body;
    } else {
      var front := t.body[..|t.body| - 1];
      StringRead(front, "\\");
      assert front + "\\" == t.body;
    }
  }

  // ----- The theorems

  /** Lexing loses nothing: rendering the tokens of any text gives the text back. */
  lemma {:induction false} LexRenders(ident: char -> bool, prev: Option<char>, text: string)
    ensures RenderAll(Lex(ident, prev, text)) == text
    decreases |text|
  {
    if text != "" {
      var t := First(ident, prev, text);
      LexRenders(ident, LastChar(t), text[|Render(t)|..]);
      assert Lex(ident, prev, text)[1..] == Lex(ident, LastChar(t), text[|Render(t)|..]);
    }
  }

  /** Every token the lexer reports is the one its surroundings call for. */
  lemma {:induction false} LexIsReadable(ident: char -> bool, prev: Option<char>, text: string)
    ensures Readable(ident, prev, Lex(ident, prev, text))
    decreases |text|
  {
    if text != "" {
      var t := First(ident, prev, text);
      var rest := text[|Render(t)|..];
      FirstFits(ident, prev, text);
      LexIsReadable(ident, LastChar(t), rest);
      LexRenders(ident, LastChar(t), rest);
      assert Lex(ident, prev, text)[1..] == Lex(ident, LastChar(t), rest);
    }
  }

  /** Every readable token list, written out, is lexed back to itself: comments,
      nesting, escapes, raw strings and the lifetime/char ambiguity included. */
  lemma {:induction false} LexReadsBack(ident: char -> bool, prev: Option<char>, ts: seq<Token>)
    requires Readable(ident, prev, ts)
    ensures Lex(ident, prev, RenderAll(ts)) == ts
    decreases |ts|
  {
    if ts != [] {
      var rest := RenderAll(ts[1..]);
      FitsIsFirst(ident, prev, ts[0], rest);
      LexReadsBack(ident, LastChar(ts[0]), ts[1..]);
      assert RenderAll(ts)[|Render(ts[0])|..] == rest;
      assert ts == [ts[0]] + ts[1..];
    }
  }

  /** Every text is written by exactly one readable token list. */
  lemma {:induction false} UniqueTokens(ident: char -> bool, ts: seq<Token>, us: seq<Token>)
    requires Readable(ident, None, ts) && Readable(ident, None, us)
    requires RenderAll(ts) == RenderAll(us)
    ensures ts == us
  {
    LexReadsBack(ident, None, ts);
    LexReadsBack(ident, None, us);
  }

  predicate IsComment(t: Token) {
    t.LineComment? || t.BlockComment?
  }

  /** The lists agree except for what their comments say, newlines aside. */
  predicate SameButComments(ts: seq<Token>, us: seq<Token>) {
    && |ts| == |us|
    && forall i :: 0 <= i < |ts| ==>
         ts[i] == us[i] || (IsComment(ts[i]) && IsComment(us[i]) && CodeOf(ts[i], 0) == CodeOf(us[i], 0))
  }

  lemma {:induction false} SameViews(ts: seq<Token>, us: seq<Token>, k: nat)
    requires SameButComments(ts, us)
    ensures CodeView(ts, k) == CodeView(us, k) && Strings(ts) == Strings(us)
    decreases |ts|
  {
    if ts != [] {
      var k' := if IsString(ts[0]) then k + 1 else k;
      SameViews(ts[1..], us[1..], k');
    }
  }

  /** What a comment says never reaches the scan: two texts that differ only in
      the contents of their comments give the same code view and strings. */
  lemma {:induction false} CommentsAreInvisible(ident: char -> bool, ts: seq<Token>, us: seq<Token>)
    requires Readable(ident, None, ts) && Readable(ident, None, us) && SameButComments(ts, us)
    ensures var a, b := Lex(ident, None, RenderAll(ts)), Lex(ident, None, RenderAll(us));
            CodeView(a, 0) == CodeView(b, 0) && Strings(a) == Strings(b)
  {
    LexReadsBack(ident, None, ts);
    LexReadsBack(ident, None, us);
    SameViews(ts, us, 0);
  }
}
