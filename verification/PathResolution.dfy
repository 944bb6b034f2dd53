/**
 The tool policy's path resolution: the component loop over a growing path
 buffer, resolution against the working directory, and the test for
 system-critical locations.
 */
module PathResolution {
  import opened Options
  import opened Texts
  import opened LexicalPaths

  // ----- The buffer always spells a normalised path

  lemma {:induction false} JoinSnoc(parts: seq<string>, last: string)
    requires parts != []
    ensures Join(parts + [last], '/') == Join(parts, '/') + "/" + last
  {
    assert "/" == ['/'];
    JoinAppend(parts, '/', [last]);
  }

  lemma {:induction false} JoinEnd(parts: seq<string>)
    requires parts != [] && Free(parts, '/') && parts[|parts| - 1] != ""
    ensures Join(parts, '/') != "" && Join(parts, '/')[|Join(parts, '/')| - 1] != '/'
  {
    var n := |parts| - 1;
    var last := parts[n];
    assert parts == parts[..n] + [last];
    assert last[|last| - 1] != '/';
    if n > 0 { JoinSnoc(parts[..n], last); }
  }

  lemma PushFirst(rooted: bool, segment: string)
    requires segment != "" && '/' !in segment
    ensures Push(Show(Clean(rooted, [])), segment) == Show(Clean(rooted, [segment]))
  {
    assert segment[0] != '/';
  }

  lemma PushNext(clean: Clean, segment: string)
    requires Tidy(clean) && clean.segments != [] && segment != "" && '/' !in segment
    ensures Push(Show(clean), segment) == Show(clean.(segments := clean.segments + [segment]))
  {
    assert segment[0] != '/';
    JoinEnd(clean.segments);
    JoinSnoc(clean.segments, segment);
    PushBelow(if clean.rooted then "/" else "", Join(clean.segments, '/'), segment);
  }

  lemma PushShow(clean: Clean, segment: string)
    requires Tidy(clean) && segment != "" && '/' !in segment
    ensures Push(Show(clean), segment) == Show(clean.(segments := clean.segments + [segment]))
  {
    if clean.segments == [] {
      assert clean.segments + [segment] == [segment];
      PushFirst(clean.rooted, segment);
    } else {
      PushNext(clean, segment);
    }
  }

  lemma PushBelow(lead: string, body: string, segment: string)
    requires body != "" && body[|body| - 1] != '/' && !IsAbsolute(segment)
    ensures Push(lead + body, segment) == lead + (body + "/" + segment)
  {
    var text := lead + body;
    assert text[|text| - 1] == body[|body| - 1];
    assert text + "/" + segment == lead + (body + "/" + segment);
  }

  lemma PopShow(clean: Clean)
    requires Tidy(clean) && clean.segments != []
    ensures Pop(Show(clean)) == Show(clean.(segments := clean.segments[..|clean.segments| - 1]))
  {
    SplitOfShow(clean);
    var front := clean.segments[..|clean.segments| - 1];
    var parts := Split(Show(clean), '/');
    if clean.rooted && front != [] {
      assert parts[..|parts| - 1] == [""] + front;
      assert ([""] + front)[1..] == front;
      assert "" + ['/'] + Join(front, '/') == "/" + Join(front, '/');
    } else if !clean.rooted {
      assert parts == clean.segments;
    }
  }

  lemma ComponentsOfShow(clean: Clean)
    requires Tidy(clean)
    ensures Components(Show(clean)) == (if clean.rooted then [RootDir] else []) + AsComponents(clean.segments)
  {
    SplitOfShow(clean);
    ShowIsAbsolute(clean);
    ProperOfShow(clean);
  }

  /** `components().next_back()`. */
  function LastComponent(path: string): Option<Component> {
    var components := Components(path);
    if components == [] then None else Some(components[|components| - 1])
  }

  /** What the loop sees at the end of its buffer. */
  lemma LastOfShow(clean: Clean)
    requires Tidy(clean)
    ensures LastComponent(Show(clean)) ==
              if clean.segments != [] then Some(ComponentOf(clean.segments[|clean.segments| - 1]))
              else if clean.rooted then Some(RootDir) else None
  {
    ComponentsOfShow(clean);
  }

  // ----- The loop

  /** The end of the buffer is a name exactly where `..` takes one away. */
  predicate EndsInName(clean: Clean) {
    clean.segments != [] && clean.segments[|clean.segments| - 1] != ".."
  }

  lemma ParentOfName(clean: Clean)
    requires Tidy(clean) && EndsInName(clean)
    ensures LastComponent(Show(clean)) == Some(Normal(clean.segments[|clean.segments| - 1]))
    ensures Pop(Show(clean)) == Show(Up(clean))
  {
    LastOfShow(clean);
    PopShow(clean);
  }

  lemma ParentOfRoot(clean: Clean)
    requires Tidy(clean) && clean.rooted && clean.segments == []
    ensures LastComponent(Show(clean)) == Some(RootDir) && Up(clean) == clean
  {
    LastOfShow(clean);
  }

  lemma ParentElsewhere(clean: Clean)
    requires Tidy(clean) && !EndsInName(clean) && !(clean.rooted && clean.segments == [])
    ensures LastComponent(Show(clean)) in {None, Some(ParentDir)}
    ensures Push(Show(clean), "..") == Show(Up(clean))
  {
    LastOfShow(clean);
    PushShow(clean, "..");
  }

  /** One turn for a `..`, on the buffer. */
  method PushParent(buffer: string, ghost clean: Clean) returns (out: string)
    requires Tidy(clean) && buffer == Show(clean)
    ensures out == Show(Up(clean))
  {
    if EndsInName(clean) {
      ParentOfName(clean);
    } else if clean.rooted && clean.segments == [] {
      ParentOfRoot(clean);
    } else {
      ParentElsewhere(clean);
    }
    match LastComponent(buffer) {
      case Some(Normal(_)) => out := Pop(buffer);
      case Some(RootDir) => out := buffer;
      case _ => out := Push(buffer, "..");
    }
  }

  /** The loop builds exactly the walk over the path's components. */
  method NormalizeLexically(path: string) returns (out: string)
    ensures out == Normalize(path)
  {
    var components := Components(path);
    SplitIsFree(path, '/');
    ProperGood(Split(path, '/'));
    out := "";
    ghost var clean := Clean(false, []);
    for i := 0 to |components|
      invariant Tidy(clean) && out == Show(clean)
      invariant Walk(clean, components[i..]) == Normalized(path)
    {
      assert components[i..][1..] == components[i + 1..];
      StepTidy(clean, components[i]);
      match components[i] {
        case RootDir => out := Push(out, "/");
        case CurDir =>
        case ParentDir => out := PushParent(out, clean);
        case Normal(name) =>
          PushShow(clean, name);
          out := Push(out, name);
      }
      clean := Step(clean, components[i]);
    }
  }

  // ----- Resolution

  /** `resolve_path`: `cwd` is None where the working directory cannot be read. */
  function Resolve(path: string, cwd: Option<string>): string {
    Normalize(if IsAbsolute(path) || cwd.None? then path else Push(cwd.value, path))
  }

  method ResolvePath(path: string, cwd: Option<string>) returns (r: string)
    ensures r == Resolve(path, cwd)
  {
    var absolute := path;
    if !IsAbsolute(path) && cwd.Some? { absolute := Push(cwd.value, path); }
    r := NormalizeLexically(absolute);
  }

  /** With a working directory that is absolute, or none at all, resolution is a
      projection. */
  lemma ResolveIdempotent(path: string, cwd: Option<string>)
    requires cwd.Some? ==> IsAbsolute(cwd.value)
    ensures Resolve(Resolve(path, cwd), cwd) == Resolve(path, cwd)
    ensures cwd.Some? ==> IsAbsolute(Resolve(path, cwd))
  {
    var text := if IsAbsolute(path) || cwd.None? then path else Push(cwd.value, path);
    NormalizeIdempotent(text);
    NormalizedTidy(text);
    NormalizedBySegments(text);
    ShowIsAbsolute(Normalized(text));
    if IsAbsolute(text) {
      RootedNormalize(text);
      assert IsAbsolute(Resolve(path, cwd));
    }
  }

  /** Resolving a relative path gives the same as resolving it from the normalised
      working directory. */
  lemma ResolveFromNormalized(path: string, cwd: string)
    requires !IsAbsolute(path)
    ensures Resolve(path, Some(cwd)) == Resolve(path, Some(Normalize(cwd)))
  {
    NormalizeJoin(cwd, path);
  }

  // ----- System-critical locations

  /** The text test: the location itself, or below it past a slash. */
  predicate AtOrBelow(path: string, location: string) {
    path == location || location + "/" <= path
  }

  predicate Names(segments: seq<string>) {
    forall i :: 0 <= i < |segments| ==> IsName(segments[i])
  }

  lemma {:induction false} JoinPrefix(a: seq<string>, b: seq<string>)
    requires a != [] && b != [] && a[0] == b[0] && '/' !in a[0]
    ensures AtOrBelow(Join(b, '/'), Join(a, '/')) <==>
              |a| == 1 || (|b| > 1 && AtOrBelow(Join(b[1..], '/'), Join(a[1..], '/')))
  {
    var head := a[0];
    if |a| > 1 && |b| > 1 {
      var x, y := Join(a[1..], '/'), Join(b[1..], '/');
      assert Join(a, '/') == head + ['/'] + x && Join(b, '/') == head + ['/'] + y;
      Cancel(head + ['/'], y, x);
      Cancel(head + ['/'], y, x + "/");
      assert head + ['/'] + x + "/" == head + ['/'] + (x + "/");
    } else if |a| == 1 && |b| > 1 {
      assert head + "/" == head + ['/'];
    } else if |b| == 1 && |a| > 1 {
      var text := head + ['/'] + Join(a[1..], '/');
      assert |text| > |head|;
    }
  }

  lemma Cancel(head: string, a: string, b: string)
    ensures head + a == head + b <==> a == b
    ensures head + b <= head + a <==> b <= a
  {
    assert (head + a)[|head|..] == a && (head + b)[|head|..] == b;
    if b <= a {
      assert a == b + a[|b|..];
      assert head + a == head + b + a[|b|..];
    }
    if head + b <= head + a {
      assert forall i :: 0 <= i < |b| ==> b[i] == (head + b)[|head| + i] == (head + a)[|head| + i] == a[i];
    }
  }

  lemma {:induction false} SameHeads(a: seq<string>, b: seq<string>)
    requires a != [] && b != [] && '/' !in a[0] && '/' !in b[0]
    requires AtOrBelow(Join(b, '/'), Join(a, '/'))
    ensures a[0] == b[0]
  {
    var xs, ys := Join(a, '/') + "/", Join(b, '/') + "/";
    HeadOf(a);
    HeadOf(b);
    assert xs <= ys;
    assert forall i :: 0 <= i < |xs| ==> xs[i] == ys[i];
    assert a[0] == xs[..|a[0]|] && b[0] == ys[..|b[0]|];
  }

  /** The first slash after a join ends its first part. */
  lemma {:induction false} HeadOf(parts: seq<string>)
    requires parts != [] && '/' !in parts[0]
    ensures var text := Join(parts, '/') + "/";
            IndexOf(text, '/') == |parts[0]| && parts[0] <= text
  {
    var text := Join(parts, '/') + "/";
    var rest := if |parts| == 1 then "" else Join(parts[1..], '/') + "/";
    assert text == parts[0] + ['/'] + rest;
    IndexOfHead(parts[0], '/', rest);
  }

  lemma {:induction false} BelowIsPrefix(a: seq<string>, b: seq<string>)
    requires Free(a, '/') && Free(b, '/') && a != [] && b != []
    ensures AtOrBelow(Join(b, '/'), Join(a, '/')) <==> a <= b
    decreases |a|
  {
    if a[0] != b[0] {
      if AtOrBelow(Join(b, '/'), Join(a, '/')) { SameHeads(a, b); }
    } else {
      JoinPrefix(a, b);
      assert a == [a[0]] + a[1..] && b == [b[0]] + b[1..];
      if |a| > 1 && |b| > 1 { BelowIsPrefix(a[1..], b[1..]); }
    }
  }

  /** On a normalised path, the text test for a rooted location is the prefix test
      on segments: a path outside the location's tree never passes, one inside
      always does. */
  lemma CriticalIsSegmentPrefix(clean: Clean, location: seq<string>)
    requires Tidy(clean) && Names(location) && location != []
    ensures AtOrBelow(Show(clean), Show(Clean(true, location))) <==> clean.rooted && location <= clean.segments
  {
    var path, place := Show(clean), Show(Clean(true, location));
    ShowIsAbsolute(clean);
    if clean.rooted {
      var x, y := Join(location, '/'), Join(clean.segments, '/');
      Cancel("/", y, x);
      Cancel("/", y, x + "/");
      assert place + "/" == "/" + (x + "/");
      if clean.segments == [] {
        JoinEnd(location);
      } else {
        BelowIsPrefix(location, clean.segments);
      }
    }
  }
}
