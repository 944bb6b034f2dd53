/**
 Repository-relative paths as git spells them: collapsing a path on a segment
 stack, and rebasing an absolute path onto the repository root.
 */
module GitPaths {
  import opened Options
  import opened Texts
  import opened LexicalPaths
  import opened PathResolution

  datatype Outcome = Rebased(path: string) | Escapes | Outside

  /** `absolute` is the platform's `isAbsolute`; `fold` its lower-casing, letter by
      letter. */
  datatype Platform = Platform(isWindows: bool, absolute: string -> bool, fold: char -> char)

  function Slashes(path: string): string {
    seq(|path|, i requires 0 <= i < |path| => if path[i] == '\\' then '/' else path[i])
  }

  function Map(text: string, f: char -> char): string {
    seq(|text|, i requires 0 <= i < |text| => f(text[i]))
  }

  lemma SlashesHead(head: string, rest: string)
    requires '\\' !in head
    ensures Slashes(head) == head
    ensures Slashes(head + ['\\'] + rest) == head + ['/'] + Slashes(rest)
  {
  }

  /** Splitting at backslashes and joining with slashes replaces each one. */
  lemma {:induction false} SplitJoinReplaces(path: string)
    ensures Join(Split(path, '\\'), '/') == Slashes(path)
    decreases |path|
  {
    var k := IndexOf(path, '\\');
    if k < |path| {
      var head, rest := path[..k], path[k + 1..];
      assert path == head + ['\\'] + rest;
      SplitJoinReplaces(rest);
      SlashesHead(head, rest);
      assert ([head] + Split(rest, '\\'))[1..] == Split(rest, '\\');
    } else {
      SlashesHead(path, "");
    }
  }

  function Segments(path: string): seq<string> {
    Split(Slashes(path), '/')
  }

  predicate Skipped(segment: string) {
    segment == "" || segment == "."
  }

  // ----- Collapsing

  function Push1(stack: seq<string>, segment: string): Option<seq<string>> {
    if Skipped(segment) then Some(stack)
    else if segment != ".." then Some(stack + [segment])
    else if stack == [] then None
    else Some(stack[..|stack| - 1])
  }

  /** The stack after all segments, or None where a `..` met an empty stack. */
  function Collapse(stack: seq<string>, segments: seq<string>): Option<seq<string>>
    decreases |segments|
  {
    if segments == [] then Some(stack)
    else match Push1(stack, segments[0])
      case None => None
      case Some(next) => Collapse(next, segments[1..])
  }

  /** What `toGitPath` computes; None where it throws. */
  function GitPath(path: string): Option<string> {
    match Collapse([], Segments(path))
    case None => None
    case Some(stack) => Some(Join(stack, '/'))
  }

  method ToGitPath(path: string) returns (r: Option<string>)
    ensures r == GitPath(path)
  {
    SplitJoinReplaces(path);
    var segments := Split(Join(Split(path, '\\'), '/'), '/');
    var stack: seq<string> := [];
    for i := 0 to |segments|
      invariant Collapse(stack, segments[i..]) == Collapse([], Segments(path))
    {
      var segment := segments[i];
      assert segments[i..][1..] == segments[i + 1..];
      if segment == "" || segment == "." { continue; }
      if segment == ".." {
        if |stack| == 0 { return None; }
        stack := stack[..|stack| - 1];
        continue;
      }
      stack := stack + [segment];
    }
    r := Some(Join(stack, '/'));
  }

  // ----- When it throws

  function Ups(segments: seq<string>): nat {
    if segments == [] then 0 else (if segments[0] == ".." then 1 else 0) + Ups(segments[1..])
  }

  function NameCount(segments: seq<string>): nat {
    if segments == [] then 0
    else (if Skipped(segments[0]) || segments[0] == ".." then 0 else 1) + NameCount(segments[1..])
  }

  /** Some prefix holds more `..` than `depth` directories and its own names. */
  ghost predicate Climbs(segments: seq<string>, depth: nat) {
    exists k :: 0 <= k <= |segments| && Ups(segments[..k]) > depth + NameCount(segments[..k])
  }

  lemma PrefixCounts(segments: seq<string>, k: nat)
    requires segments != [] && k < |segments|
    ensures Ups(segments[..k + 1]) == (if segments[0] == ".." then 1 else 0) + Ups(segments[1..][..k])
    ensures NameCount(segments[..k + 1]) ==
              (if Skipped(segments[0]) || segments[0] == ".." then 0 else 1) + NameCount(segments[1..][..k])
  {
    assert segments[..k + 1][1..] == segments[1..][..k];
  }

  lemma ClimbsStep(segments: seq<string>, depth: nat)
    requires segments != []
    ensures segments[0] == ".." && depth == 0 ==> Climbs(segments, depth)
    ensures segments[0] == ".." && depth > 0 ==> (Climbs(segments, depth) <==> Climbs(segments[1..], depth - 1))
    ensures Skipped(segments[0]) ==> (Climbs(segments, depth) <==> Climbs(segments[1..], depth))
    ensures segments[0] != ".." && !Skipped(segments[0]) ==>
              (Climbs(segments, depth) <==> Climbs(segments[1..], depth + 1))
  {
    var tail := segments[1..];
    forall k: nat | k < |segments|
      ensures Ups(segments[..k + 1]) == (if segments[0] == ".." then 1 else 0) + Ups(tail[..k])
      ensures NameCount(segments[..k + 1]) ==
                (if Skipped(segments[0]) || segments[0] == ".." then 0 else 1) + NameCount(tail[..k])
    {
      PrefixCounts(segments, k);
    }
    assert Ups(segments[..0]) == 0;
    if segments[0] == ".." && depth == 0 {
      assert Ups(segments[..1]) == 1 + Ups(tail[..0]) && NameCount(segments[..1]) == NameCount(tail[..0]);
    }
    var below: nat := if segments[0] == ".." then (if depth > 0 then depth - 1 else 0)
                      else if Skipped(segments[0]) then depth else depth + 1;
    if Climbs(tail, below) {
      var k :| 0 <= k <= |tail| && Ups(tail[..k]) > below + NameCount(tail[..k]);
      assert Ups(segments[..k + 1]) >= Ups(tail[..k]);
    }
    if Climbs(segments, depth) {
      var k :| 0 <= k <= |segments| && Ups(segments[..k]) > depth + NameCount(segments[..k]);
      assert k > 0;
      assert segments[..(k - 1) + 1] == segments[..k];
      assert Ups(tail[..k - 1]) > below + NameCount(tail[..k - 1]) || (segments[0] == ".." && depth == 0);
    }
  }

  lemma {:induction false} CollapseFails(stack: seq<string>, segments: seq<string>)
    ensures Collapse(stack, segments).None? <==> Climbs(segments, |stack|)
    decreases |segments|
  {
    if segments == [] {
      assert forall k :: 0 <= k <= |segments| ==> Ups(segments[..k]) == 0;
    } else {
      ClimbsStep(segments, |stack|);
      match Push1(stack, segments[0])
      case None =>
      case Some(next) => CollapseFails(next, segments[1..]);
    }
  }

  /** `toGitPath` throws exactly when some prefix has more `..` than names. */
  lemma ThrowsExactlyOnEscape(path: string)
    ensures GitPath(path).None? <==> Climbs(Segments(path), 0)
  {
    CollapseFails([], Segments(path));
  }

  // ----- What it returns

  predicate GitNames(stack: seq<string>) {
    forall i :: 0 <= i < |stack| ==> IsName(stack[i]) && '\\' !in stack[i]
  }

  predicate Plain(segments: seq<string>) {
    forall i :: 0 <= i < |segments| ==> '/' !in segments[i] && '\\' !in segments[i]
  }

  lemma {:induction false} SplitKeepsChars(text: string, c: char)
    requires c !in text
    ensures forall i :: 0 <= i < |Split(text, '/')| ==> c !in Split(text, '/')[i]
    decreases |text|
  {
    var k := IndexOf(text, '/');
    if k < |text| { SplitKeepsChars(text[k + 1..], c); }
  }

  lemma SegmentsPlain(path: string)
    ensures Plain(Segments(path))
  {
    SplitIsFree(Slashes(path), '/');
    SplitKeepsChars(Slashes(path), '\\');
  }

  lemma {:induction false} CollapseClean(stack: seq<string>, segments: seq<string>)
    requires GitNames(stack) && Plain(segments) && Collapse(stack, segments).Some?
    ensures GitNames(Collapse(stack, segments).value)
    decreases |segments|
  {
    if segments != [] { CollapseClean(Push1(stack, segments[0]).value, segments[1..]); }
  }

  lemma {:induction false} CollapseNames(stack: seq<string>, names: seq<string>)
    requires GitNames(names)
    ensures Collapse(stack, names) == Some(stack + names)
    decreases |names|
  {
    if names == [] {
      assert stack + names == stack;
    } else {
      CollapseNames(stack + [names[0]], names[1..]);
      assert stack + [names[0]] + names[1..] == stack + names;
    }
  }

  lemma {:induction false} JoinKeepsOut(stack: seq<string>)
    requires GitNames(stack)
    ensures '\\' !in Join(stack, '/')
  {
    if |stack| > 1 { JoinKeepsOut(stack[1..]); }
  }

  lemma {:induction false} SegmentsOfJoin(stack: seq<string>)
    requires GitNames(stack)
    ensures Segments(Join(stack, '/')) == if stack == [] then [""] else stack
  {
    JoinKeepsOut(stack);
    assert Slashes(Join(stack, '/')) == Join(stack, '/');
    SplitOfSegments(stack);
  }

  /** A result is clean, spelt from its own segments, and collapses to itself. */
  lemma GitPathIdempotent(path: string)
    requires GitPath(path).Some?
    ensures GitNames(Collapse([], Segments(path)).value)
    ensures GitPath(GitPath(path).value) == GitPath(path)
  {
    SegmentsPlain(path);
    CollapseClean([], Segments(path));
    var stack := Collapse([], Segments(path)).value;
    SegmentsOfJoin(stack);
    if stack == [] {
      assert Collapse([], [""]) == Collapse([], [""][1..]);
    } else {
      CollapseNames([], stack);
      assert [] + stack == stack;
    }
  }

  // ----- Rebasing

  predicate HasDriveLetter(path: string) {
    && |path| >= 3 && path[1] == ':' && path[2] == '/'
    && ('A' <= path[0] <= 'Z' || 'a' <= path[0] <= 'z')
  }

  function Same(c: char): char {
    c
  }

  /** How the root and the path are compared: folded on Windows or below a drive. */
  function Comparison(platform: Platform, root: string): char -> char {
    if platform.isWindows || HasDriveLetter(root) then platform.fold else Same
  }

  predicate Rebases(path: string, normalized: string, platform: Platform) {
    platform.absolute(Slashes(path)) || HasDriveLetter(normalized)
  }

  /** `normalized` rebased onto `root`, both as git spells them. */
  function Rebase(root: string, normalized: string, fold: char -> char): Outcome {
    var comparablePath, comparableRoot := Map(normalized, fold), Map(root, fold);
    if comparablePath == comparableRoot then Rebased("")
    else if comparableRoot + "/" <= comparablePath then Rebased(normalized[|root| + 1..])
    else Outside
  }

  /** `repoRelativeGitPath`, given the repository root as the platform resolves it. */
  function RepoRelative(root: string, path: string, platform: Platform): Outcome {
    match GitPath(path)
    case None => Escapes
    case Some(normalized) =>
      match GitPath(root)
      case None => Escapes
      case Some(base) =>
        if !Rebases(path, normalized, platform) then Rebased(normalized)
        else Rebase(base, normalized, Comparison(platform, base))
  }

  /** Folding neither makes nor removes a separator. */
  ghost predicate KeepsSlash(fold: char -> char) {
    forall c :: fold(c) == '/' <==> c == '/'
  }

  function MapAll(parts: seq<string>, f: char -> char): seq<string> {
    seq(|parts|, i requires 0 <= i < |parts| => Map(parts[i], f))
  }

  lemma {:induction false} MapJoin(parts: seq<string>, f: char -> char)
    requires KeepsSlash(f)
    ensures Map(Join(parts, '/'), f) == Join(MapAll(parts, f), '/')
  {
    if |parts| > 1 {
      var tail := parts[1..];
      MapJoin(tail, f);
      assert MapAll(parts, f)[1..] == MapAll(tail, f);
      assert Map(parts[0] + ['/'] + Join(tail, '/'), f) == Map(parts[0], f) + ['/'] + Map(Join(tail, '/'), f);
    }
  }

  /** The root's segments lead, up to folding; below an empty root there is nothing
      but the root itself. */
  predicate Below(root: seq<string>, stack: seq<string>, fold: char -> char) {
    && |root| <= |stack| && MapAll(root, fold) == MapAll(stack[..|root|], fold)
    && (root == [] ==> stack == [])
  }

  lemma {:induction false} TextIsBelow(root: seq<string>, stack: seq<string>, fold: char -> char)
    requires KeepsSlash(fold) && GitNames(root) && GitNames(stack)
    ensures AtOrBelow(Map(Join(stack, '/'), fold), Map(Join(root, '/'), fold)) <==> Below(root, stack, fold)
  {
    MapJoin(root, fold);
    MapJoin(stack, fold);
    var r, s := MapAll(root, fold), MapAll(stack, fold);
    assert |root| <= |stack| ==> MapAll(stack[..|root|], fold) == s[..|root|];
    if root == [] {
      if stack != [] {
        assert s[0] <= Join(s, '/');
        assert s[0][0] != '/';
      }
    } else if stack == [] {
      assert r[0] != "" && r[0] <= Join(r, '/');
    } else {
      BelowIsPrefix(r, s);
    }
  }

  /** Rebasing succeeds exactly below the root, and leaves the segments below it. */
  lemma {:induction false} RebaseIsSuffix(root: seq<string>, stack: seq<string>, fold: char -> char)
    requires KeepsSlash(fold) && GitNames(root) && GitNames(stack)
    ensures var r := Rebase(Join(root, '/'), Join(stack, '/'), fold);
            if Below(root, stack, fold) then r == Rebased(Join(stack[|root|..], '/')) else r == Outside
  {
    TextIsBelow(root, stack, fold);
    if Below(root, stack, fold) {
      var k := |root|;
      MapJoin(root, fold);
      MapJoin(stack[..k], fold);
      assert |Join(root, '/')| == |Map(Join(root, '/'), fold)| == |Map(Join(stack[..k], '/'), fold)|;
      if k == |stack| {
        assert stack[..k] == stack && stack[k..] == [];
      } else {
        assert stack == stack[..k] + stack[k..] && "/" == ['/'];
        JoinAppend(stack[..k], '/', stack[k..]);
        assert |Join(stack, '/')| > |Join(root, '/')|;
        assert Join(stack, '/')[|Join(root, '/')| + 1..] == Join(stack[k..], '/');
      }
    }
  }

  /** An absolute path is rebased exactly when its segments begin with the root's,
      and refused otherwise; a root without segments admits only itself. */
  lemma RebasesExactlyBelow(root: string, path: string, platform: Platform)
    requires KeepsSlash(platform.fold)
    requires GitPath(root).Some? && GitPath(path).Some?
    requires Rebases(path, GitPath(path).value, platform)
    ensures var r, s := Collapse([], Segments(root)).value, Collapse([], Segments(path)).value;
            RepoRelative(root, path, platform) ==
              if Below(r, s, Comparison(platform, GitPath(root).value))
              then Rebased(Join(s[|r|..], '/')) else Outside
  {
    GitPathIdempotent(root);
    GitPathIdempotent(path);
    RebaseIsSuffix(Collapse([], Segments(root)).value, Collapse([], Segments(path)).value,
                   Comparison(platform, GitPath(root).value));
  }

  lemma {:induction false} CollapseAppend(stack: seq<string>, a: seq<string>, b: seq<string>)
    requires Collapse(stack, a).Some?
    ensures Collapse(stack, a + b) == Collapse(Collapse(stack, a).value, b)
    decreases |a|
  {
    if a == [] {
      assert a + b == b;
    } else {
      assert (a + b)[1..] == a[1..] + b;
      CollapseAppend(Push1(stack, a[0]).value, a[1..], b);
    }
  }

  lemma {:induction false} CollapseOnto(base: seq<string>, stack: seq<string>, segments: seq<string>)
    requires Collapse(stack, segments).Some?
    ensures Collapse(base + stack, segments) == Some(base + Collapse(stack, segments).value)
    decreases |segments|
  {
    if segments != [] {
      var next := Push1(stack, segments[0]).value;
      assert stack != [] ==> (base + stack)[..|base + stack| - 1] == base + stack[..|stack| - 1];
      assert base + stack + [segments[0]] == base + (stack + [segments[0]]);
      CollapseOnto(base, next, segments[1..]);
    }
  }

  lemma SegmentsJoined(root: string, rest: string)
    ensures Segments(root + "/" + rest) == Segments(root) + Segments(rest)
  {
    assert Slashes(root + "/" + rest) == Slashes(root) + "/" + Slashes(rest);
    SplitAppend(Slashes(root), Slashes(rest));
  }

  /** Walking on from the root's stack. */
  lemma CollapseJoined(root: string, rest: string)
    requires GitPath(root).Some?
    ensures Collapse([], Segments(root + "/" + rest)) ==
              Collapse(Collapse([], Segments(root)).value, Segments(rest))
  {
    SegmentsJoined(root, rest);
    CollapseAppend([], Segments(root), Segments(rest));
  }

  lemma {:induction false} CollapseFromRoot(base: seq<string>, segments: seq<string>)
    requires Collapse([], segments).Some?
    ensures Collapse(base, segments) == Some(base + Collapse([], segments).value)
  {
    CollapseOnto(base, [], segments);
    assert base + [] == base;
  }

  /** What rebasing root/r gives, for every r: the walk goes on from the root's
      segments, and its outcome decides. */
  lemma RebasedJoin(root: string, rest: string, platform: Platform)
    requires KeepsSlash(platform.fold) && GitPath(root).Some?
    ensures var r := Collapse([], Segments(root)).value;
            var walked := Collapse(r, Segments(rest));
            RepoRelative(root, root + "/" + rest, platform) ==
              if walked.None? then Escapes
              else if !Rebases(root + "/" + rest, Join(walked.value, '/'), platform)
              then Rebased(Join(walked.value, '/'))
              else if Below(r, walked.value, Comparison(platform, GitPath(root).value))
              then Rebased(Join(walked.value[|r|..], '/'))
              else Outside
  {
    CollapseJoined(root, rest);
    var joined := root + "/" + rest;
    if GitPath(joined).Some? && Rebases(joined, GitPath(joined).value, platform) {
      RebasesExactlyBelow(root, joined, platform);
    }
  }

  /** Rebasing root/r says what `toGitPath` says of r: the same path, or a refusal. */
  predicate Agrees(root: string, rest: string, platform: Platform) {
    var outcome := RepoRelative(root, root + "/" + rest, platform);
    match GitPath(rest)
    case Some(path) => outcome == Rebased(path)
    case None => !outcome.Rebased?
  }

  /** The walk of an escaping path comes back below the root it left. */
  predicate Returns(root: seq<string>, rest: string, fold: char -> char) {
    var walked := Collapse(root, Segments(rest));
    walked.Some? && Below(root, walked.value, fold)
  }

  /** Exactly when rebasing an absolute root/r agrees with `toGitPath` of r: for an r
      that does not escape, unless the root is the bare file-system root and r is not
      empty; for one that escapes, unless it comes back below the root. */
  lemma RebasingUndoesJoining(root: string, rest: string, platform: Platform)
    requires KeepsSlash(platform.fold) && GitPath(root).Some?
    requires var joined := root + "/" + rest;
             GitPath(joined).Some? ==> Rebases(joined, GitPath(joined).value, platform)
    ensures Agrees(root, rest, platform) <==>
              if GitPath(rest).Some? then GitPath(root) != Some("") || GitPath(rest) == Some("")
              else !Returns(Collapse([], Segments(root)).value, rest, Comparison(platform, GitPath(root).value))
  {
    RebasedJoin(root, rest, platform);
    CollapseJoined(root, rest);
    var r := Collapse([], Segments(root)).value;
    if GitPath(rest).Some? {
      var s := Collapse([], Segments(rest)).value;
      CollapseFromRoot(r, Segments(rest));
      assert (r + s)[..|r|] == r && (r + s)[|r|..] == s;
      OnlyEmptyIsBlank(root);
      OnlyEmptyIsBlank(rest);
    }
  }

  lemma OnlyEmptyIsBlank(path: string)
    requires GitPath(path).Some?
    ensures GitPath(path).value == "" <==> Collapse([], Segments(path)).value == []
  {
    GitPathIdempotent(path);
    var stack := Collapse([], Segments(path)).value;
    if stack != [] { assert stack[0] <= Join(stack, '/') && stack[0] != ""; }
  }

  // ----- Inputs where the two differ

  const POSIX := Platform(false, IsAbsolute, Same)

  lemma {:induction false} SegmentsSpelt(parts: seq<string>, path: string)
    requires parts != [] && Plain(parts) && path == Join(parts, '/')
    requires '\\' !in path
    ensures Segments(path) == parts
  {
    assert Slashes(path) == path;
    SplitJoin(parts, '/');
  }

  lemma {:induction false} CollapseCons(stack: seq<string>, segment: string, rest: seq<string>)
    ensures Collapse(stack, [segment] + rest) ==
              match Push1(stack, segment) case None => None case Some(next) => Collapse(next, rest)
  {
    assert ([segment] + rest)[1..] == rest;
  }

  lemma {:induction false} CollapseOwnNames(names: seq<string>)
    requires GitNames(names)
    ensures Collapse([], names) == Some(names)
  {
    CollapseNames([], names);
    assert [] + names == names;
  }

  lemma {:induction false} CollapseRooted(names: seq<string>)
    requires GitNames(names)
    ensures Collapse([], [""] + names) == Some(names)
  {
    CollapseCons([], "", names);
    CollapseOwnNames(names);
  }

  /** From an empty stack a leading `..` fails; from one name it replaces it. */
  lemma {:induction false} CollapseSideways(name: string, names: seq<string>)
    requires GitNames(names)
    ensures Collapse([], [".."] + names).None?
    ensures Collapse([name], [".."] + names) == Some(names)
  {
    CollapseCons([], "..", names);
    CollapseCons([name], "..", names);
    assert [name][..0] == [];
    CollapseOwnNames(names);
  }

  lemma SidewaysSegments()
    ensures Segments("/a") == ["", "a"]
    ensures Segments("../a/x") == ["..", "a", "x"]
  {
    assert ["..", "a", "x"][1..] == ["a", "x"] && ["a", "x"][1..] == ["x"];
    SegmentsSpelt(["", "a"], "/a");
    SegmentsSpelt(["..", "a", "x"], "../a/x");
  }

  lemma RootSegments()
    ensures Segments("/") == ["", ""]
    ensures Segments("x") == ["x"]
  {
    SegmentsSpelt(["", ""], "/");
    SegmentsSpelt(["x"], "x");
  }

  lemma Sideways(root: string, rest: string, a: string, x: string)
    requires GitNames([a]) && GitNames([a, x])
    requires Segments(root) == ["", a] && Segments(rest) == ["..", a, x]
    ensures Collapse([], Segments(root)) == Some([a])
    ensures Collapse([], Segments(rest)).None?
    ensures Collapse([a], Segments(rest)) == Some([a, x])
  {
    assert ["", a] == [""] + [a] && ["..", a, x] == [".."] + [a, x];
    CollapseRooted([a]);
    CollapseSideways(a, [a, x]);
  }

  lemma SidewaysLiterals()
    ensures Collapse([], Segments("/a")) == Some(["a"])
    ensures Collapse([], Segments("../a/x")).None?
    ensures Collapse(["a"], Segments("../a/x")) == Some(["a", "x"])
  {
    SidewaysSegments();
    Sideways("/a", "../a/x", "a", "x");
  }

  /** `../a/x` escapes, yet below `/a` it comes back and is rebased to `x`. */
  lemma EscapingPathIsRebased()
    ensures GitPath("../a/x").None?
    ensures RepoRelative("/a", "/a" + "/" + "../a/x", POSIX) == Rebased("x")
    ensures !Agrees("/a", "../a/x", POSIX)
  {
    SidewaysLiterals();
    assert IsAbsolute(Slashes("/a" + "/" + "../a/x"));
    RebasedJoin("/a", "../a/x", POSIX);
    assert ["a", "x"][..1] == ["a"] && ["a", "x"][1..] == ["x"];
  }

  /** Below a repository at `/`, even `x` is refused. */
  lemma FileSystemRootRefuses()
    ensures GitPath("x") == Some("x")
    ensures RepoRelative("/", "/" + "/" + "x", POSIX) == Outside
    ensures !Agrees("/", "x", POSIX)
  {
    RootSegments();
    CollapseCons([], "", [""]);
    CollapseRooted([]);
    assert [""] + [] == [""] && ["", ""] == [""] + [""];
    CollapseOwnNames(["x"]);
    assert IsAbsolute(Slashes("/" + "/" + "x"));
    RebasedJoin("/", "x", POSIX);
  }
}
