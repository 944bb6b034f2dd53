/**
 Discovery of tool and SDK directories from an environment, off Windows: the
 entries of `PATH` and of the known variables, resolved, deduplicated and
 filtered into the read-only half of a filesystem policy.
 */
module ToolsPolicy {
  import opened Options
  import opened Texts
  import opened LexicalPaths
  import opened Occurrences
  import opened PathResolution

  type Environment = seq<(string, string)>

  datatype Variable = Variable(name: string, isList: bool)

  datatype Policy = Policy(readonlyPaths: seq<string>, readwritePaths: seq<string>)

  /** What discovery asks of its surroundings; `resolve` is `resolve_path` and
      `critical` is `is_system_critical_path`. */
  datatype Host = Host(
    resolve: string -> string,
    isDirectory: string -> bool,
    critical: string -> bool,
    isSpace: char -> bool
  )

  const KNOWN_VARIABLES: seq<Variable> := [
    Variable("PYTHONPATH", true), Variable("PYTHONHOME", false), Variable("VCINSTALLDIR", false),
    Variable("VSINSTALLDIR", false), Variable("PSModulePath", true), Variable("VCPKG_ROOT", false),
    Variable("GOPATH", false), Variable("GOROOT", false), Variable("CARGO_HOME", false),
    Variable("RUSTUP_HOME", false), Variable("JAVA_HOME", false), Variable("NVM_HOME", false),
    Variable("NVM_SYMLINK", false), Variable("NODE_PATH", true), Variable("DOTNET_ROOT", false),
    Variable("CONDA_PREFIX", false), Variable("LD_LIBRARY_PATH", true), Variable("VIRTUAL_ENV", false),
    Variable("PYENV_ROOT", false)]

  // ----- Collecting candidates

  function EnvGet(env: Environment, name: string): Option<string> {
    if env == [] then None
    else if env[0].0 == name then Some(env[0].1)
    else EnvGet(env[1..], name)
  }

  function NonEmpty(parts: seq<string>): seq<string> {
    if parts == [] then [] else (if parts[0] == "" then [] else [parts[0]]) + NonEmpty(parts[1..])
  }

  function SplitPathList(value: string): seq<string> {
    NonEmpty(Split(value, ':'))
  }

  function TrimStart(value: string, isSpace: char -> bool): string {
    if value != "" && isSpace(value[0]) then TrimStart(value[1..], isSpace) else value
  }

  function Trim(value: string, isSpace: char -> bool): string {
    TrimEnd(TrimStart(value, isSpace), isSpace)
  }

  function TrimEnd(value: string, isSpace: char -> bool): string {
    if value != "" && isSpace(value[|value| - 1]) then TrimEnd(value[..|value| - 1], isSpace) else value
  }

  function SinglePath(value: string, isSpace: char -> bool): seq<string> {
    var trimmed := Trim(value, isSpace);
    if trimmed == "" then [] else [trimmed]
  }

  function Extracted(env: Environment, v: Variable, isSpace: char -> bool): seq<string> {
    match EnvGet(env, v.name)
    case None => []
    case Some(value) => if v.isList then SplitPathList(value) else SinglePath(value, isSpace)
  }

  function PathValue(env: Environment): string {
    match EnvGet(env, "PATH")
    case Some(value) => value
    case None => (match EnvGet(env, "Path") case Some(value) => value case None => "")
  }

  function AllExtracted(known: seq<Variable>, extract: Variable -> seq<string>): seq<string> {
    if known == [] then []
    else AllExtracted(known[..|known| - 1], extract) + extract(known[|known| - 1])
  }

  /** Every candidate directory, in the order the code meets them. */
  function Candidates(env: Environment, known: seq<Variable>, isSpace: char -> bool): seq<string> {
    SplitPathList(PathValue(env)) + AllExtracted(known, v => Extracted(env, v, isSpace))
  }

  method CollectFrom(pathDirs: seq<string>, known: seq<Variable>, extract: Variable -> seq<string>)
    returns (collected: seq<string>)
    ensures collected == pathDirs + AllExtracted(known, extract)
  {
    collected := pathDirs;
    for i := 0 to |known|
      invariant collected == pathDirs + AllExtracted(known[..i], extract)
    {
      assert known[..i + 1][..i] == known[..i];
      collected := collected + extract(known[i]);
    }
    assert known[..|known|] == known;
  }

  method Collect(env: Environment, known: seq<Variable>, isSpace: char -> bool) returns (collected: seq<string>)
    ensures collected == Candidates(env, known, isSpace)
  {
    collected := CollectFrom(SplitPathList(PathValue(env)), known, v => Extracted(env, v, isSpace));
  }

  // ----- Deduplication

  function Resolved(paths: seq<string>, resolve: string -> string): seq<string> {
    seq(|paths|, i requires 0 <= i < |paths| => resolve(paths[i]))
  }

  /** `deduplicate_paths`: the distinct resolved paths, in order of first occurrence. */
  method Deduplicate(paths: seq<string>, resolve: string -> string) returns (out: seq<string>)
    ensures FirstOccurrences(out, Resolved(paths, resolve), Everything)
  {
    var seen: set<string> := {};
    out := [];
    for i := 0 to |paths|
      invariant FirstOccurrences(out, Resolved(paths[..i], resolve), Everything)
      invariant forall x :: x in seen <==> x in Resolved(paths[..i], resolve)
    {
      var resolved := resolve(paths[i]);
      assert Resolved(paths[..i + 1], resolve) == Resolved(paths[..i], resolve) + [resolved];
      OccurrencesAppend(out, Resolved(paths[..i], resolve), resolved, Everything);
      if resolved !in seen { out := out + [resolved]; }
      seen := seen + {resolved};
    }
    assert paths[..|paths|] == paths;
  }

  // ----- The policy

  predicate Admitted(host: Host, dir: string) {
    host.isDirectory(dir) && !host.critical(dir)
  }

  ghost predicate Projects(resolve: string -> string) {
    forall p :: resolve(resolve(p)) == resolve(p)
  }

  /** Deduplicate, filter, deduplicate again: the second pass changes nothing. */
  lemma {:induction false} TwoPasses(collected: seq<string>, resolve: string -> string, pass: string -> bool,
                  distinct: seq<string>, readonly: seq<string>)
    requires Projects(resolve)
    requires FirstOccurrences(distinct, Resolved(collected, resolve), Everything)
    requires FirstOccurrences(readonly, Resolved(Filter(distinct, pass), resolve), Everything)
    ensures FirstOccurrences(readonly, Resolved(collected, resolve), pass)
  {
    var all, filtered := Resolved(collected, resolve), Filter(distinct, pass);
    FilterKeeps(distinct, pass, all);
    FilteredResolve(collected, resolve, filtered);
    SecondPassChangesNothing(filtered, all, pass, readonly);
  }

  lemma FilteredResolve(collected: seq<string>, resolve: string -> string, filtered: seq<string>)
    requires Projects(resolve) && forall x :: x in filtered ==> x in Resolved(collected, resolve)
    ensures Resolved(filtered, resolve) == filtered
  {
    forall i | 0 <= i < |filtered| ensures resolve(filtered[i]) == filtered[i] {
      assert filtered[i] in Resolved(collected, resolve);
    }
  }

  /** The read-only paths are exactly the resolved candidates that are directories
      and not critical: none missing, none twice, by first occurrence. */
  method AvailableToolsPolicy(env: Environment, known: seq<Variable>, host: Host) returns (policy: Policy)
    requires Projects(host.resolve)
    ensures FirstOccurrences(policy.readonlyPaths,
                             Resolved(Candidates(env, known, host.isSpace), host.resolve),
                             d => Admitted(host, d))
    ensures policy.readwritePaths == []
  {
    var collected := Collect(env, known, host.isSpace);
    var readonly := Discover(collected, host.resolve, d => Admitted(host, d));
    policy := Policy(readonly, []);
  }

  method Discover(collected: seq<string>, resolve: string -> string, pass: string -> bool)
    returns (readonly: seq<string>)
    requires Projects(resolve)
    ensures FirstOccurrences(readonly, Resolved(collected, resolve), pass)
  {
    var distinct := Deduplicate(collected, resolve);
    readonly := Deduplicate(Filter(distinct, pass), resolve);
    TwoPasses(collected, resolve, pass, distinct, readonly);
  }

  // ----- On a Unix host

  const CRITICAL: seq<seq<string>> :=
    [["bin"], ["sbin"], ["usr", "bin"], ["usr", "sbin"], ["boot"], ["proc"], ["sys"], ["dev"]]

  /** `is_system_critical_path`: resolve, then compare as text. */
  predicate IsSystemCritical(dir: string, cwd: Option<string>, locations: seq<seq<string>>) {
    exists i | 0 <= i < |locations| :: AtOrBelow(Resolve(dir, cwd), Show(Clean(true, locations[i])))
  }

  function UnixHost(cwd: Option<string>, isDirectory: string -> bool, isSpace: char -> bool): Host {
    Host(p => Resolve(p, cwd), isDirectory, d => IsSystemCritical(d, cwd, CRITICAL), isSpace)
  }

  lemma UnixHostProjects(cwd: Option<string>, isDirectory: string -> bool, isSpace: char -> bool)
    requires cwd.Some? ==> IsAbsolute(cwd.value)
    ensures Projects(UnixHost(cwd, isDirectory, isSpace).resolve)
  {
    forall p ensures Resolve(Resolve(p, cwd), cwd) == Resolve(p, cwd) {
      ResolveIdempotent(p, cwd);
    }
  }

  /** The path's tree is one of the locations' trees. */
  predicate Inside(clean: Clean, locations: seq<seq<string>>) {
    clean.rooted && exists i | 0 <= i < |locations| :: locations[i] <= clean.segments
  }

  predicate Locations(locations: seq<seq<string>>) {
    forall i :: 0 <= i < |locations| ==> locations[i] != [] && Names(locations[i])
  }

  /** The text test on the resolved path decides membership of the locations' trees. */
  lemma CriticalMeansInside(dir: string, cwd: Option<string>, locations: seq<seq<string>>)
    requires Locations(locations)
    ensures IsSystemCritical(dir, cwd, locations) <==>
              Inside(Normalized(Resolve(dir, cwd)), locations)
  {
    var text := if IsAbsolute(dir) || cwd.None? then dir else Push(cwd.value, dir);
    var clean := Normalized(text);
    NormalizedTidy(text);
    ReadsBack(clean);
    forall i | 0 <= i < |locations|
      ensures AtOrBelow(Show(clean), Show(Clean(true, locations[i]))) <==>
                clean.rooted && locations[i] <= clean.segments
    {
      CriticalIsSegmentPrefix(clean, locations[i]);
    }
  }

  lemma CriticalLocations()
    ensures Locations(CRITICAL)
    ensures |CRITICAL| == 8
    ensures Show(Clean(true, CRITICAL[0])) == "/bin"
    ensures Show(Clean(true, CRITICAL[1])) == "/sbin"
    ensures Show(Clean(true, CRITICAL[2])) == "/usr/bin"
    ensures Show(Clean(true, CRITICAL[3])) == "/usr/sbin"
    ensures Show(Clean(true, CRITICAL[4])) == "/boot"
    ensures Show(Clean(true, CRITICAL[5])) == "/proc"
    ensures Show(Clean(true, CRITICAL[6])) == "/sys"
    ensures Show(Clean(true, CRITICAL[7])) == "/dev"
  {
    assert ["usr", "bin"][1..] == ["bin"] && ["usr", "sbin"][1..] == ["sbin"];
  }

  /** A path that may be granted: in normal form, a directory, outside every critical
      tree, and absolute where there is a working directory. */
  predicate Safe(path: string, cwd: Option<string>, isDirectory: string -> bool) {
    && Resolve(path, cwd) == path && isDirectory(path) && !Inside(Normalized(path), CRITICAL)
    && (cwd.Some? ==> IsAbsolute(path))
  }

  /** What a discovered policy grants on a Unix host: normal-form directories outside
      every critical tree, and every candidate that resolves to one. */
  lemma GrantsExactlyTheSafe(readonly: seq<string>, candidates: seq<string>, cwd: Option<string>,
                             isDirectory: string -> bool, isSpace: char -> bool)
    requires cwd.Some? ==> IsAbsolute(cwd.value)
    requires var host := UnixHost(cwd, isDirectory, isSpace);
             FirstOccurrences(readonly, Resolved(candidates, host.resolve), d => Admitted(host, d))
    ensures forall p :: p in readonly ==> Safe(p, cwd, isDirectory)
    ensures forall q :: q in candidates ==>
              (Resolve(q, cwd) in readonly <==>
               isDirectory(Resolve(q, cwd)) && !Inside(Normalized(Resolve(q, cwd)), CRITICAL))
  {
    var host := UnixHost(cwd, isDirectory, isSpace);
    var all := Resolved(candidates, host.resolve);
    CriticalLocations();
    forall p | p in readonly ensures Safe(p, cwd, isDirectory) {
      assert p in all;
      var i :| 0 <= i < |all| && all[i] == p;
      ResolveIdempotent(candidates[i], cwd);
      CriticalMeansInside(p, cwd, CRITICAL);
    }
    forall q | q in candidates
      ensures Resolve(q, cwd) in readonly <==>
                isDirectory(Resolve(q, cwd)) && !Inside(Normalized(Resolve(q, cwd)), CRITICAL)
    {
      var i :| 0 <= i < |candidates| && candidates[i] == q;
      assert all[i] == Resolve(q, cwd);
      ResolveIdempotent(q, cwd);
      CriticalMeansInside(Resolve(q, cwd), cwd, CRITICAL);
    }
  }

  /** Each path once. */
  predicate Distinct(paths: seq<string>) {
    forall i, j :: 0 <= i < j < |paths| ==> paths[i] != paths[j]
  }

  /** Every path is what some candidate resolves to. */
  ghost predicate From(paths: seq<string>, candidates: seq<string>, cwd: Option<string>) {
    forall p :: p in paths ==> exists q :: q in candidates && p == Resolve(q, cwd)
  }

  lemma OccurrencesAreDistinct(kept: seq<string>, list: seq<string>, pass: string -> bool)
    requires FirstOccurrences(kept, list, pass)
    ensures Distinct(kept)
  {
  }

  /** `available_tools_policy` on a Unix host, over any environment: distinct safe
      paths, each from a candidate of PATH or a known variable, and every candidate
      that resolves to a directory outside the critical trees is among them. */
  method UnixToolsPolicy(env: Environment, cwd: Option<string>, isDirectory: string -> bool, isSpace: char -> bool)
    returns (policy: Policy)
    requires cwd.Some? ==> IsAbsolute(cwd.value)
    ensures policy.readwritePaths == [] && Distinct(policy.readonlyPaths)
    ensures From(policy.readonlyPaths, Candidates(env, KNOWN_VARIABLES, isSpace), cwd)
    ensures forall p :: p in policy.readonlyPaths ==> Safe(p, cwd, isDirectory)
    ensures forall q :: q in Candidates(env, KNOWN_VARIABLES, isSpace) ==>
              (Resolve(q, cwd) in policy.readonlyPaths <==>
               isDirectory(Resolve(q, cwd)) && !Inside(Normalized(Resolve(q, cwd)), CRITICAL))
  {
    var host := UnixHost(cwd, isDirectory, isSpace);
    UnixHostProjects(cwd, isDirectory, isSpace);
    policy := AvailableToolsPolicy(env, KNOWN_VARIABLES, host);
    ghost var candidates := Candidates(env, KNOWN_VARIABLES, isSpace);
    OccurrencesAreDistinct(policy.readonlyPaths, Resolved(candidates, host.resolve), d => Admitted(host, d));
    GrantsExactlyTheSafe(policy.readonlyPaths, candidates, cwd, isDirectory, isSpace);
    forall p | p in policy.readonlyPaths ensures exists q :: q in candidates && p == Resolve(q, cwd) {
      var all := Resolved(candidates, host.resolve);
      assert p in all;
      var i :| 0 <= i < |all| && all[i] == p;
      assert candidates[i] in candidates;
    }
  }
}
