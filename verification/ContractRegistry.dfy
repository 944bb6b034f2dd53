/**
 The contract registry and its SDK targets: the registry parser accepts exactly
 the lists of valid descriptors with distinct versions, and over such a registry
 the target validator accepts exactly one target map.
 */
module ContractRegistry {
  import opened Options
  import opened SemVer

  /** A decoded JSON value, as far as this code looks at it. */
  datatype Json = Text(s: string) | Null | Bool(b: bool) | Other

  datatype RequestRoot = RequestRoot(fixtureDirectory: Json, schemaDefinition: Json)

  datatype Descriptor =
    | NotAnObject
    | Contract(
        version: Json, status: Json, schemaId: Json, schemaPath: Json,
        typescriptPath: Json, generatesArtifacts: Json,
        requestRoots: Option<seq<RequestRoot>>)  // None: not an array

  datatype Result<+T> = Ok(value: T) | Fail

  const PUBLISHED := Text("published")
  const DEVELOPMENT := Text("development")

  predicate NonEmptyText(v: Json) {
    v.Text? && v.s != ""
  }

  function Members<T>(xs: seq<T>): set<T> {
    set x | x in xs
  }

  predicate Distinct<T(==)>(xs: seq<T>) {
    forall i, j :: 0 <= i < j < |xs| ==> xs[i] != xs[j]
  }

  lemma DistinctSnoc<T>(xs: seq<T>, x: T)
    ensures Distinct(xs + [x]) <==> Distinct(xs) && x !in xs
  {
    var all := xs + [x];
    assert all[|xs|] == x && forall i :: 0 <= i < |xs| ==> all[i] == xs[i];
    if Distinct(all) {
      assert forall i, j :: 0 <= i < j < |xs| ==> xs[i] == all[i] != all[j] == xs[j];
      assert forall i :: 0 <= i < |xs| ==> xs[i] == all[i] != all[|xs|];
    }
  }

  // ----- requestRootsForContract

  predicate ValidRoot(root: RequestRoot) {
    NonEmptyText(root.fixtureDirectory) && NonEmptyText(root.schemaDefinition)
  }

  function Directories(roots: seq<RequestRoot>): seq<Json> {
    seq(|roots|, i requires 0 <= i < |roots| => roots[i].fixtureDirectory)
  }

  function Definitions(roots: seq<RequestRoot>): seq<Json> {
    seq(|roots|, i requires 0 <= i < |roots| => roots[i].schemaDefinition)
  }

  /** Every root is complete, and no directory or schema definition repeats. */
  predicate SoundRoots(roots: seq<RequestRoot>) {
    && (forall i :: 0 <= i < |roots| ==> ValidRoot(roots[i]))
    && Distinct(Directories(roots)) && Distinct(Definitions(roots))
  }

  predicate ValidRoots(roots: seq<RequestRoot>) {
    roots != [] && SoundRoots(roots)
  }

  lemma SoundRootsSnoc(roots: seq<RequestRoot>, root: RequestRoot)
    ensures SoundRoots(roots + [root]) <==>
              && SoundRoots(roots) && ValidRoot(root)
              && root.fixtureDirectory !in Directories(roots) && root.schemaDefinition !in Definitions(roots)
  {
    var all := roots + [root];
    assert Directories(all) == Directories(roots) + [root.fixtureDirectory];
    assert Definitions(all) == Definitions(roots) + [root.schemaDefinition];
    DistinctSnoc(Directories(roots), root.fixtureDirectory);
    DistinctSnoc(Definitions(roots), root.schemaDefinition);
    if SoundRoots(all) { assert forall i :: 0 <= i < |roots| ==> all[i] == roots[i]; }
    assert all[|roots|] == root;
  }

  lemma SoundPrefix(roots: seq<RequestRoot>, n: nat)
    requires n <= |roots| && SoundRoots(roots)
    ensures SoundRoots(roots[..n])
  {
    assert forall i :: 0 <= i < n ==> Directories(roots[..n])[i] == Directories(roots)[i];
    assert forall i :: 0 <= i < n ==> Definitions(roots[..n])[i] == Definitions(roots)[i];
  }

  /** The directory of each root against its schema definition. */
  function RootMap(roots: seq<RequestRoot>): map<Json, Json> {
    if roots == [] then map[]
    else
      var root := roots[|roots| - 1];
      RootMap(roots[..|roots| - 1])[root.fixtureDirectory := root.schemaDefinition]
  }

  lemma {:induction false} RootMapMembers(roots: seq<RequestRoot>)
    requires SoundRoots(roots)
    ensures RootMap(roots).Keys == Members(Directories(roots))
    ensures forall root :: root in roots ==>
              root.fixtureDirectory in RootMap(roots) && RootMap(roots)[root.fixtureDirectory] == root.schemaDefinition
    ensures |RootMap(roots)| == |roots|
  {
    if roots != [] {
      var front, root := roots[..|roots| - 1], roots[|roots| - 1];
      assert roots == front + [root];
      SoundRootsSnoc(front, root);
      RootMapMembers(front);
      assert Directories(roots) == Directories(front) + [root.fixtureDirectory];
      forall r | r in front ensures r.fixtureDirectory != root.fixtureDirectory {
        var i :| 0 <= i < |front| && front[i] == r;
        assert Directories(front)[i] == r.fixtureDirectory;
      }
    }
  }

  /** Every directory of the map comes from a listed root. */
  lemma {:induction false} RootOf(roots: seq<RequestRoot>, directory: Json)
    requires SoundRoots(roots) && directory in RootMap(roots)
    ensures exists i :: 0 <= i < |roots| && roots[i] == RequestRoot(directory, RootMap(roots)[directory])
  {
    RootMapMembers(roots);
    assert directory in Directories(roots);
    var i :| 0 <= i < |roots| && Directories(roots)[i] == directory;
    assert roots[i] in roots;
  }

  /** With sound roots the map holds exactly the listed pairs, and no two directories
      share a definition. */
  lemma {:induction false} RootMapIsOneToOne(roots: seq<RequestRoot>)
    requires SoundRoots(roots)
    ensures forall directory, definition ::
              (directory in RootMap(roots) && RootMap(roots)[directory] == definition) <==>
              RequestRoot(directory, definition) in roots
    ensures forall a, b :: a in RootMap(roots) && b in RootMap(roots) && RootMap(roots)[a] == RootMap(roots)[b] ==>
              a == b
    ensures |RootMap(roots)| == |roots|
  {
    RootMapMembers(roots);
    forall directory, definition | directory in RootMap(roots) && RootMap(roots)[directory] == definition
      ensures RequestRoot(directory, definition) in roots
    {
      RootOf(roots, directory);
    }
    forall a, b | a in RootMap(roots) && b in RootMap(roots) && RootMap(roots)[a] == RootMap(roots)[b] ensures a == b {
      RootOf(roots, a);
      RootOf(roots, b);
      var i :| 0 <= i < |roots| && roots[i] == RequestRoot(a, RootMap(roots)[a]);
      var j :| 0 <= j < |roots| && roots[j] == RequestRoot(b, RootMap(roots)[b]);
      SameDefinition(roots, i, j);
    }
  }

  lemma SameDefinition(roots: seq<RequestRoot>, i: nat, j: nat)
    requires SoundRoots(roots) && i < |roots| && j < |roots| && Definitions(roots)[i] == Definitions(roots)[j]
    ensures i == j
  {
  }

  method RequestRootsForContract(requestRoots: seq<RequestRoot>) returns (r: Result<map<Json, Json>>)
    ensures r.Ok? <==> ValidRoots(requestRoots)
    ensures r.Ok? ==> r.value == RootMap(requestRoots)
  {
    if requestRoots == [] { return Fail; }
    var roots: map<Json, Json> := map[];
    var schemaDefinitions: set<Json> := {};
    var n := 0;
    while n < |requestRoots|
      invariant n <= |requestRoots|
      invariant SoundRoots(requestRoots[..n])
      invariant roots == RootMap(requestRoots[..n])
      invariant schemaDefinitions == Members(Definitions(requestRoots[..n]))
    {
      var root := requestRoots[n];
      RootStep(requestRoots, n, roots, schemaDefinitions);
      if !NonEmptyText(root.fixtureDirectory) || !NonEmptyText(root.schemaDefinition) { return Fail; }
      if root.fixtureDirectory in roots { return Fail; }
      if root.schemaDefinition in schemaDefinitions { return Fail; }
      roots := roots[root.fixtureDirectory := root.schemaDefinition];
      schemaDefinitions := schemaDefinitions + {root.schemaDefinition};
      n := n + 1;
    }
    assert requestRoots[..n] == requestRoots;
    return Ok(roots);
  }

  lemma {:induction false} RootMapSnoc(before: seq<RequestRoot>, root: RequestRoot)
    ensures RootMap(before + [root]) == RootMap(before)[root.fixtureDirectory := root.schemaDefinition]
    ensures Members(Definitions(before + [root])) == Members(Definitions(before)) + {root.schemaDefinition}
  {
    assert (before + [root])[..|before|] == before;
    assert Definitions(before + [root]) == Definitions(before) + [root.schemaDefinition];
  }

  lemma {:induction false} RootIsNew(before: seq<RequestRoot>, root: RequestRoot)
    requires SoundRoots(before)
    ensures SoundRoots(before + [root]) <==>
              ValidRoot(root) && root.fixtureDirectory !in RootMap(before) &&
              root.schemaDefinition !in Members(Definitions(before))
  {
    SoundRootsSnoc(before, root);
    RootMapMembers(before);
  }

  /** What one more root decides: the prefix stays sound exactly when the root is
      complete and new, and an unsound prefix makes the whole list unsound. */
  lemma RootStep(roots: seq<RequestRoot>, n: nat, seen: map<Json, Json>, definitions: set<Json>)
    requires n < |roots| && SoundRoots(roots[..n])
    requires seen == RootMap(roots[..n]) && definitions == Members(Definitions(roots[..n]))
    ensures var root := roots[n];
            && (SoundRoots(roots[..n + 1]) <==>
                  ValidRoot(root) && root.fixtureDirectory !in seen && root.schemaDefinition !in definitions)
            && (!SoundRoots(roots[..n + 1]) ==> !SoundRoots(roots))
            && RootMap(roots[..n + 1]) == seen[root.fixtureDirectory := root.schemaDefinition]
            && Members(Definitions(roots[..n + 1])) == definitions + {root.schemaDefinition}
  {
    assert roots[..n + 1] == roots[..n] + [roots[n]];
    RootIsNew(roots[..n], roots[n]);
    RootMapSnoc(roots[..n], roots[n]);
    if !SoundRoots(roots[..n + 1]) { NotSound(roots, n + 1); }
  }

  lemma NotSound(roots: seq<RequestRoot>, n: nat)
    requires n <= |roots| && !SoundRoots(roots[..n])
    ensures !SoundRoots(roots)
  {
    if SoundRoots(roots) { SoundPrefix(roots, n); }
  }

  // ----- parseContractRegistry, after JSON decoding

  function ParseValue(v: Json): Option<Version> {
    if v.Text? then ParseVersion(v.s) else None
  }

  predicate ValidDescriptor(d: Descriptor) {
    && d.Contract?
    && NonEmptyText(d.version) && NonEmptyText(d.status) && NonEmptyText(d.schemaId) && NonEmptyText(d.schemaPath)
    && ParseValue(d.version).Some?
    && (d.status == PUBLISHED || d.status == DEVELOPMENT)
    && (d.typescriptPath == Null || NonEmptyText(d.typescriptPath))
    && d.generatesArtifacts.Bool?
    && d.requestRoots.Some?
    && (d.requestRoots.value != [] ==> ValidRoots(d.requestRoots.value))
  }

  function VersionOf(d: Descriptor): Json {
    if d.Contract? then d.version else Null
  }

  function Versions(registry: seq<Descriptor>): seq<Json> {
    seq(|registry|, i requires 0 <= i < |registry| => VersionOf(registry[i]))
  }

  /** Descriptors that pass `valid`, with pairwise distinct versions. */
  predicate RegisteredBy(valid: Descriptor -> bool, registry: seq<Descriptor>) {
    && (forall i :: 0 <= i < |registry| ==> valid(registry[i]))
    && Distinct(Versions(registry))
  }

  predicate Registered(registry: seq<Descriptor>) {
    RegisteredBy(ValidDescriptor, registry)
  }

  lemma RegisteredSnoc(valid: Descriptor -> bool, registry: seq<Descriptor>, d: Descriptor)
    ensures RegisteredBy(valid, registry + [d]) <==>
              RegisteredBy(valid, registry) && valid(d) && VersionOf(d) !in Versions(registry)
  {
    var all := registry + [d];
    assert all[|registry|] == d && forall i :: 0 <= i < |registry| ==> all[i] == registry[i];
    assert Versions(all) == Versions(registry) + [VersionOf(d)];
    DistinctSnoc(Versions(registry), VersionOf(d));
  }

  lemma RegisteredPrefix(valid: Descriptor -> bool, registry: seq<Descriptor>, n: nat)
    requires n <= |registry| && RegisteredBy(valid, registry)
    ensures RegisteredBy(valid, registry[..n])
  {
    assert forall i :: 0 <= i < n ==> Versions(registry[..n])[i] == Versions(registry)[i];
  }

  /** `byVersion`: the last descriptor of each version. */
  function ByVersion(registry: seq<Descriptor>): map<Json, Descriptor> {
    if registry == [] then map[]
    else
      var d := registry[|registry| - 1];
      ByVersion(registry[..|registry| - 1])[VersionOf(d) := d]
  }

  lemma {:induction false} ByVersionMembers(registry: seq<Descriptor>)
    ensures ByVersion(registry).Keys == Members(Versions(registry))
    ensures forall v :: v in ByVersion(registry) ==> ByVersion(registry)[v] in registry && VersionOf(ByVersion(registry)[v]) == v
  {
    if registry != [] {
      var front, d := registry[..|registry| - 1], registry[|registry| - 1];
      ByVersionMembers(front);
      assert registry == front + [d];
      assert Versions(registry) == Versions(front) + [VersionOf(d)];
    }
  }

  /** Over a registry with distinct versions, look-up finds every descriptor and nothing
      else. */
  lemma {:induction false} LookupFinds(registry: seq<Descriptor>)
    requires Distinct(Versions(registry))
    ensures forall version, d ::
              (version in ByVersion(registry) && ByVersion(registry)[version] == d) <==>
              d in registry && VersionOf(d) == version
  {
    ByVersionMembers(registry);
    forall d | d in registry
      ensures VersionOf(d) in ByVersion(registry) && ByVersion(registry)[VersionOf(d)] == d
    {
      var i :| 0 <= i < |registry| && registry[i] == d;
      IndexFinds(registry, i);
    }
  }

  lemma {:induction false} IndexFinds(registry: seq<Descriptor>, i: nat)
    requires Distinct(Versions(registry)) && i < |registry|
    ensures VersionOf(registry[i]) in ByVersion(registry) && ByVersion(registry)[VersionOf(registry[i])] == registry[i]
  {
    ByVersionMembers(registry);
    var version := VersionOf(registry[i]);
    assert Versions(registry)[i] == version;
    var j :| 0 <= j < |registry| && registry[j] == ByVersion(registry)[version];
    assert Versions(registry)[j] == version;
  }

  method CheckDescriptor(d: Descriptor) returns (ok: bool)
    ensures ok == ValidDescriptor(d)
  {
    if !d.Contract? { return false; }
    if !NonEmptyText(d.version) || !NonEmptyText(d.status) || !NonEmptyText(d.schemaId) || !NonEmptyText(d.schemaPath) {
      return false;
    }
    if ParseValue(d.version).None? { return false; }
    if d.status != PUBLISHED && d.status != DEVELOPMENT { return false; }
    if d.typescriptPath != Null && !NonEmptyText(d.typescriptPath) { return false; }
    if !d.generatesArtifacts.Bool? { return false; }
    if d.requestRoots.None? { return false; }
    if |d.requestRoots.value| > 0 {
      var roots := RequestRootsForContract(d.requestRoots.value);
      if roots.Fail? { return false; }
    }
    return true;
  }

  method ParseContractRegistry(registry: seq<Descriptor>) returns (r: Result<map<Json, Descriptor>>)
    ensures r.Ok? <==> registry != [] && Registered(registry)
    ensures r.Ok? ==> r.value == ByVersion(registry)
  {
    if registry == [] { return Fail; }
    var byVersion: map<Json, Descriptor> := map[];
    var n := 0;
    while n < |registry|
      invariant n <= |registry|
      invariant Registered(registry[..n])
      invariant byVersion == ByVersion(registry[..n])
    {
      var contract := registry[n];
      RegistryStep(ValidDescriptor, registry, n, byVersion);
      var ok := CheckDescriptor(contract);
      if !ok { return Fail; }
      if contract.version in byVersion { return Fail; }
      byVersion := byVersion[contract.version := contract];
      n := n + 1;
    }
    assert registry[..n] == registry;
    return Ok(byVersion);
  }

  lemma RegistryStep(valid: Descriptor -> bool, registry: seq<Descriptor>, n: nat, seen: map<Json, Descriptor>)
    requires n < |registry| && RegisteredBy(valid, registry[..n]) && seen == ByVersion(registry[..n])
    ensures var d := registry[n];
            && (RegisteredBy(valid, registry[..n + 1]) <==> valid(d) && VersionOf(d) !in seen)
            && (RegisteredBy(valid, registry) ==> RegisteredBy(valid, registry[..n + 1]))
            && ByVersion(registry[..n + 1]) == seen[VersionOf(d) := d]
  {
    var before, d := registry[..n], registry[n];
    var upTo := registry[..n + 1];
    assert upTo == before + [d] && upTo[..n] == before;
    RegisteredSnoc(valid, before, d);
    ByVersionMembers(before);
    if RegisteredBy(valid, registry) { RegisteredPrefix(valid, registry, n + 1); }
  }
}
