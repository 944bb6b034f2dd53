/**
 POSIX paths as text, Rust's view of their components, and lexical
 normalisation.
 */
module LexicalPaths {
  import opened Texts

  datatype Component = RootDir | CurDir | ParentDir | Normal(name: string)

  /** A normalised path: its root and the segments below it. */
  datatype Clean = Clean(rooted: bool, segments: seq<string>)

  // ----- Paths as text

  predicate IsAbsolute(path: string) {
    path != "" && path[0] == '/'
  }

  function ComponentOf(segment: string): Component {
    if segment == ".." then ParentDir else Normal(segment)
  }

  /** The components of the segments that are neither empty nor `.`. */
  function Proper(segments: seq<string>): seq<Component> {
    if segments == [] then []
    else (if segments[0] == "" || segments[0] == "." then [] else [ComponentOf(segments[0])]) + Proper(segments[1..])
  }

  /** `Path::components` on Unix: a leading `.` is kept, all others are skipped. */
  function Components(path: string): seq<Component> {
    var segments := Split(path, '/');
    (if IsAbsolute(path) then [RootDir] else if segments[0] == "." then [CurDir] else []) + Proper(segments)
  }

  /** `PathBuf::push`. */
  function Push(buffer: string, path: string): string {
    if IsAbsolute(path) then path
    else if buffer == "" || buffer[|buffer| - 1] == '/' then buffer + path
    else buffer + "/" + path
  }

  /** Text of a normalised path. */
  function Show(clean: Clean): string {
    (if clean.rooted then "/" else "") + Join(clean.segments, '/')
  }

  /** `PathBuf::pop` on a path that `Show` can produce: drop the last segment. */
  function Pop(buffer: string): string {
    var segments := Split(buffer, '/');
    if |segments| == 1 then ""
    else if |segments| == 2 && segments[0] == "" then "/"
    else Join(segments[..|segments| - 1], '/')
  }

  // ----- Walking

  predicate IsName(segment: string) {
    segment != "" && segment != "." && segment != ".." && '/' !in segment
  }

  /** Names only below a root; below no root, first the `..` that remain. */
  predicate Tidy(clean: Clean) {
    && (forall i :: 0 <= i < |clean.segments| ==>
          IsName(clean.segments[i]) || (!clean.rooted && clean.segments[i] == ".."))
    && (forall i, j :: 0 <= i < j < |clean.segments| && clean.segments[j] == ".." ==> clean.segments[i] == "..")
  }

  function Up(clean: Clean): Clean {
    if clean.segments == [] then (if clean.rooted then clean else clean.(segments := [".."]))
    else if clean.segments[|clean.segments| - 1] == ".." then clean.(segments := clean.segments + [".."])
    else clean.(segments := clean.segments[..|clean.segments| - 1])
  }

  function Step(clean: Clean, component: Component): Clean {
    match component
    case RootDir => Clean(true, [])
    case CurDir => clean
    case ParentDir => Up(clean)
    case Normal(name) => clean.(segments := clean.segments + [name])
  }

  function Walk(clean: Clean, components: seq<Component>): Clean
    decreases |components|
  {
    if components == [] then clean else Walk(Step(clean, components[0]), components[1..])
  }

  function Normalized(path: string): Clean {
    Walk(Clean(false, []), Components(path))
  }

  /** What `normalize_lexically` computes. */
  function Normalize(path: string): string {
    Show(Normalized(path))
  }

  lemma {:induction false} WalkAppend(clean: Clean, a: seq<Component>, b: seq<Component>)
    ensures Walk(clean, a + b) == Walk(Walk(clean, a), b)
    decreases |a|
  {
    if a == [] {
      assert a + b == b;
    } else {
      assert (a + b)[1..] == a[1..] + b;
      WalkAppend(Step(clean, a[0]), a[1..], b);
    }
  }

  predicate GoodComponent(c: Component) {
    c.Normal? ==> IsName(c.name)
  }

  lemma StepTidy(clean: Clean, c: Component)
    requires Tidy(clean) && GoodComponent(c)
    ensures Tidy(Step(clean, c))
  {
  }

  lemma {:induction false} WalkTidy(clean: Clean, components: seq<Component>)
    requires Tidy(clean) && forall c :: c in components ==> GoodComponent(c)
    ensures Tidy(Walk(clean, components))
    decreases |components|
  {
    if components != [] {
      StepTidy(clean, components[0]);
      WalkTidy(Step(clean, components[0]), components[1..]);
    }
  }

  lemma {:induction false} ProperGood(segments: seq<string>)
    requires Free(segments, '/')
    ensures forall c :: c in Proper(segments) ==> GoodComponent(c) && c != RootDir && c != CurDir
  {
    if segments != [] { ProperGood(segments[1..]); }
  }

  lemma NormalizedTidy(path: string)
    ensures Tidy(Normalized(path))
  {
    SplitIsFree(path, '/');
    ProperGood(Split(path, '/'));
    WalkTidy(Clean(false, []), Components(path));
  }

  // ----- Segments decide

  /** Root and leading `.` aside, a path is walked segment by segment. */
  lemma {:induction false} NormalizedBySegments(path: string)
    ensures Normalized(path) == Walk(Clean(IsAbsolute(path), []), Proper(Split(path, '/')))
  {
    var proper := Proper(Split(path, '/'));
    var start := Clean(false, []);
    if IsAbsolute(path) {
      WalkAppend(start, [RootDir], proper);
      assert Walk(start, [RootDir]) == Walk(Clean(true, []), [RootDir][1..]);
    } else if Split(path, '/')[0] == "." {
      WalkAppend(start, [CurDir], proper);
      assert Walk(start, [CurDir]) == Walk(start, [CurDir][1..]);
    } else {
      assert [] + proper == proper;
    }
  }

  lemma {:induction false} ProperAppend(a: seq<string>, b: seq<string>)
    ensures Proper(a + b) == Proper(a) + Proper(b)
  {
    if a == [] {
      assert a + b == b;
    } else {
      assert (a + b)[1..] == a[1..] + b;
      ProperAppend(a[1..], b);
    }
  }

  lemma {:induction false} SplitAppend(a: string, b: string)
    ensures Split(a + "/" + b, '/') == Split(a, '/') + Split(b, '/')
  {
    SplitIsFree(a, '/');
    SplitIsFree(b, '/');
    JoinSplit(a, '/');
    JoinSplit(b, '/');
    assert "/" == ['/'];
    JoinAppend(Split(a, '/'), '/', Split(b, '/'));
    SplitJoin(Split(a, '/') + Split(b, '/'), '/');
  }

  // ----- Reading a normalised path back

  /** The components of the segments of a tidy path are those segments. */
  function AsComponents(segments: seq<string>): seq<Component> {
    seq(|segments|, i requires 0 <= i < |segments| => ComponentOf(segments[i]))
  }

  lemma {:induction false} ProperOfSegments(segments: seq<string>)
    requires forall i :: 0 <= i < |segments| ==> segments[i] != "" && segments[i] != "."
    ensures Proper(segments) == AsComponents(segments)
  {
    if segments != [] {
      ProperOfSegments(segments[1..]);
      assert AsComponents(segments) == [ComponentOf(segments[0])] + AsComponents(segments[1..]);
    }
  }

  lemma {:induction false} SplitOfSegments(segments: seq<string>)
    requires Free(segments, '/')
    ensures Split(Join(segments, '/'), '/') == if segments == [] then [""] else segments
  {
    if segments == [] { ProperBlank(); } else { SplitJoin(segments, '/'); }
  }

  lemma SplitOfShow(clean: Clean)
    requires Tidy(clean)
    ensures Split(Show(clean), '/') ==
              (if clean.rooted then [""] else []) + (if clean.segments == [] then [""] else clean.segments)
  {
    SplitOfSegments(clean.segments);
    var body := Join(clean.segments, '/');
    if clean.rooted {
      SplitHead("", '/', body);
      assert "" + ['/'] + body == Show(clean);
    } else {
      assert Show(clean) == body;
    }
  }

  lemma ShowIsAbsolute(clean: Clean)
    requires Tidy(clean)
    ensures IsAbsolute(Show(clean)) == clean.rooted
  {
    if clean.segments != [] {
      assert clean.segments[0] != "" && clean.segments[0][0] != '/';
      assert clean.segments[0] <= Join(clean.segments, '/');
    }
  }

  lemma ProperOfShow(clean: Clean)
    requires Tidy(clean)
    ensures Proper(Split(Show(clean), '/')) == AsComponents(clean.segments)
  {
    SplitOfShow(clean);
    ProperOfSegments(clean.segments);
    var lead: seq<string> := if clean.rooted then [""] else [];
    assert Proper(lead) == [] && Proper([""]) == [] by {
      assert Proper([""][1..]) == [];
    }
    if clean.segments == [] { ProperAppend(lead, [""]); } else { ProperAppend(lead, clean.segments); }
    assert AsComponents([]) == [];
  }

  lemma {:induction false} WalkTidySegments(clean: Clean)
    requires Tidy(clean)
    ensures Walk(Clean(clean.rooted, []), AsComponents(clean.segments)) == clean
    decreases |clean.segments|
  {
    var segments := clean.segments;
    if segments != [] {
      var n := |segments| - 1;
      var front := clean.(segments := segments[..n]);
      WalkTidySegments(front);
      assert AsComponents(segments) == AsComponents(segments[..n]) + [ComponentOf(segments[n])];
      WalkAppend(Clean(clean.rooted, []), AsComponents(segments[..n]), [ComponentOf(segments[n])]);
      assert Walk(front, [ComponentOf(segments[n])]) == Step(front, ComponentOf(segments[n]));
      assert segments == segments[..n] + [segments[n]];
    }
  }

  lemma ReadsBack(clean: Clean)
    requires Tidy(clean)
    ensures Normalized(Show(clean)) == clean
  {
    NormalizedBySegments(Show(clean));
    ShowIsAbsolute(clean);
    ProperOfShow(clean);
    WalkTidySegments(clean);
  }

  // ----- The laws

  /** Normalising twice changes nothing, for every path. */
  lemma NormalizeIdempotent(path: string)
    ensures Normalize(Normalize(path)) == Normalize(path)
  {
    NormalizedTidy(path);
    ReadsBack(Normalized(path));
  }

  /** The segments of a rooted path, walked from the root with `..` clamped there. */
  function Clamped(segments: seq<string>): seq<string> {
    if segments == [] then []
    else
      var before, s := Clamped(segments[..|segments| - 1]), segments[|segments| - 1];
      if s == "" || s == "." then before
      else if s != ".." then before + [s]
      else if before == [] then [] else before[..|before| - 1]
  }

  lemma {:induction false} WalkIsClamped(segments: seq<string>)
    requires Free(segments, '/')
    ensures Walk(Clean(true, []), Proper(segments)) == Clean(true, Clamped(segments))
    ensures forall i :: 0 <= i < |Clamped(segments)| ==> IsName(Clamped(segments)[i])
  {
    if segments != [] {
      var n := |segments| - 1;
      WalkIsClamped(segments[..n]);
      assert segments == segments[..n] + [segments[n]];
      ProperAppend(segments[..n], [segments[n]]);
      WalkAppend(Clean(true, []), Proper(segments[..n]), Proper([segments[n]]));
      OneSegment(Clean(true, Clamped(segments[..n])), segments[n]);
    }
  }

  lemma {:induction false} OneSegment(clean: Clean, s: string)
    ensures Walk(clean, Proper([s])) == (if s == "" || s == "." then clean else Step(clean, ComponentOf(s)))
  {
    assert Proper([s][1..]) == [];
    if s != "" && s != "." {
      assert Proper([s]) == [ComponentOf(s)];
      assert Walk(clean, [ComponentOf(s)]) == Walk(Step(clean, ComponentOf(s)), [ComponentOf(s)][1..]);
    }
  }

  /** On a rooted path the result is the walk from the root: absolute, with no `.`,
      `..` or empty segment left. */
  lemma {:induction false} RootedNormalize(path: string)
    requires IsAbsolute(path)
    ensures Normalize(path) == "/" + Join(Clamped(Split(path, '/')), '/')
    ensures forall i :: 0 <= i < |Clamped(Split(path, '/'))| ==> IsName(Clamped(Split(path, '/'))[i])
  {
    NormalizedBySegments(path);
    SplitIsFree(path, '/');
    WalkIsClamped(Split(path, '/'));
  }

  lemma ProperBlank()
    ensures Proper([""]) == [] && Split("", '/') == [""]
  {
    assert Proper([""][1..]) == [];
  }

  lemma {:induction false} ProperSlash(base: string, b: string)
    ensures Proper(Split(base + "/" + b, '/')) == Proper(Split(base, '/')) + Proper(Split(b, '/'))
  {
    SplitAppend(base, b);
    ProperAppend(Split(base, '/'), Split(b, '/'));
  }

  lemma PushAbsolute(a: string, b: string)
    requires !IsAbsolute(b)
    ensures IsAbsolute(Push(a, b)) == IsAbsolute(a)
  {
  }

  lemma {:induction false} ProperTrailing(base: string)
    ensures Proper(Split(base + "/", '/')) == Proper(Split(base, '/'))
  {
    ProperBlank();
    assert base + "/" + "" == base + "/";
    ProperSlash(base, "");
  }

  lemma {:induction false} ProperPush(a: string, b: string)
    requires !IsAbsolute(b)
    ensures Proper(Split(Push(a, b), '/')) == Proper(Split(a, '/')) + Proper(Split(b, '/'))
  {
    if a == "" {
      ProperBlank();
      assert Push(a, b) == b;
    } else if a[|a| - 1] == '/' {
      var base := a[..|a| - 1];
      assert a == base + "/";
      ProperTrailing(base);
      ProperSlash(base, b);
    } else {
      ProperSlash(a, b);
    }
  }

  /** Pushing a relative path walks on from where the base ended. */
  lemma {:induction false} NormalizedPush(a: string, b: string)
    requires !IsAbsolute(b)
    ensures Normalized(Push(a, b)) == Walk(Normalized(a), Proper(Split(b, '/')))
  {
    NormalizedBySegments(a);
    NormalizedBySegments(Push(a, b));
    PushAbsolute(a, b);
    ProperPush(a, b);
    WalkAppend(Clean(IsAbsolute(a), []), Proper(Split(a, '/')), Proper(Split(b, '/')));
  }

  /** Normalising a/b equals normalising (normalised a)/b, for every relative b. */
  lemma NormalizeJoin(a: string, b: string)
    requires !IsAbsolute(b)
    ensures Normalize(Push(a, b)) == Normalize(Push(Normalize(a), b))
  {
    NormalizedPush(a, b);
    NormalizedPush(Normalize(a), b);
    NormalizedTidy(a);
    ReadsBack(Normalized(a));
  }
}
