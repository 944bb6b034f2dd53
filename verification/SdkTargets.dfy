/**
 `validateSdkMajorTargets`: which SDK major points at which exact contract. Over
 a registry with distinct versions exactly one target map is accepted.

 The validator only needs two things of the version library, parsing and
 ordering; `Library` passes them in, and `SEMVER` is the one it is used with.
 */
module SdkTargets {
  import opened Decimal
  import opened Options
  import opened SemVerNumbers
  import opened SemVer
  import opened SemVerParsing
  import opened SemVerOrder
  import opened Sorting
  import opened ContractRegistry

  datatype Targets = NotAPlainObject | Targets(entries: map<string, Json>)

  datatype Library = Library(parse: Json -> Option<Version>, order: (Version, Version) -> int)

  const SEMVER := Library(ParseValue, VersionOrder)

  /** Only texts parse, with safe majors, and the order is a total preorder. */
  ghost predicate Sound(lib: Library) {
    && (forall v: Json :: lib.parse(v).Some? ==> v.Text? && lib.parse(v).value.major <= MAX_SAFE_INTEGER)
    && Preorder(lib.order)
  }

  lemma SemVerIsSound()
    ensures Sound(SEMVER)
  {
    forall v: Json | SEMVER.parse(v).Some? ensures v.Text? && SEMVER.parse(v).value.major <= MAX_SAFE_INTEGER {
      ParsePrints(v.s);
    }
    forall a, b ensures Opposed(SEMVER.order, a, b) {
      VersionOrderIsTotal(a, b);
    }
    forall a, b, c | Chain(SEMVER.order, a, b, c) ensures SEMVER.order(a, c) <= 0 {
      VersionOrderIsTotal(a, b);
      VersionOrderIsTotal(b, c);
      if VersionOrder(a, b) < 0 && VersionOrder(b, c) < 0 { VersionOrderIsTransitive(a, b, c); }
    }
  }

  // ----- Stable contracts of a major

  /** `{ contract, parsed }` in the source. */
  datatype Stable = Stable(contract: Descriptor, parsed: Version)

  predicate Parses(lib: Library, d: Descriptor) {
    lib.parse(VersionOf(d)).Some?
  }

  predicate IsStable(lib: Library, d: Descriptor) {
    && d.Contract? && Parses(lib, d)
    && var v := lib.parse(d.version).value;
       v.major >= 1 && d.status == PUBLISHED && v.prerelease == "" && v.build == ""
  }

  predicate StableIn(lib: Library, d: Descriptor, major: nat) {
    IsStable(lib, d) && lib.parse(d.version).value.major == major
  }

  function StableOf(lib: Library, registry: seq<Descriptor>, major: nat): seq<Stable> {
    if registry == [] then []
    else
      var d := registry[|registry| - 1];
      var rest := StableOf(lib, registry[..|registry| - 1], major);
      if StableIn(lib, d, major) then rest + [Stable(d, lib.parse(d.version).value)] else rest
  }

  lemma {:induction false} StableOfSnoc(lib: Library, registry: seq<Descriptor>, d: Descriptor, major: nat)
    ensures StableOf(lib, registry + [d], major) ==
              (if StableIn(lib, d, major)
               then StableOf(lib, registry, major) + [Stable(d, lib.parse(d.version).value)]
               else StableOf(lib, registry, major))
  {
    assert (registry + [d])[..|registry|] == registry;
  }

  lemma {:induction false} StableMembers(lib: Library, registry: seq<Descriptor>, major: nat)
    ensures forall s :: s in StableOf(lib, registry, major) <==>
              s.contract in registry && StableIn(lib, s.contract, major) && lib.parse(s.contract.version) == Some(s.parsed)
  {
    if registry != [] {
      var front, d := registry[..|registry| - 1], registry[|registry| - 1];
      StableMembers(lib, front, major);
      assert registry == front + [d];
      StableOfSnoc(lib, front, d, major);
    }
  }

  function StableMajors(lib: Library, registry: seq<Descriptor>): set<nat> {
    set i | 0 <= i < |registry| && IsStable(lib, registry[i]) :: lib.parse(registry[i].version).value.major
  }

  lemma {:induction false} StableMajorsMembers(lib: Library, registry: seq<Descriptor>, major: nat)
    ensures major in StableMajors(lib, registry) <==> StableOf(lib, registry, major) != []
  {
    StableMembers(lib, registry, major);
    if major in StableMajors(lib, registry) {
      var i :| 0 <= i < |registry| && IsStable(lib, registry[i]) && lib.parse(registry[i].version).value.major == major;
      assert Stable(registry[i], lib.parse(registry[i].version).value) in StableOf(lib, registry, major);
    }
    if StableOf(lib, registry, major) != [] {
      var s := StableOf(lib, registry, major)[0];
      assert s in StableOf(lib, registry, major);
      var i :| 0 <= i < |registry| && registry[i] == s.contract;
    }
  }

  /** `contracts.sort(...)` and `contracts.at(-1)?.contract.version`. */
  function LatestOf(lib: Library, contracts: seq<Stable>): Json {
    var sorted := Sort((a: Stable, b: Stable) => lib.order(a.parsed, b.parsed), contracts);
    if sorted == [] then Null else VersionOf(Last(sorted).contract)
  }

  function Latest(lib: Library, registry: seq<Descriptor>, major: nat): Json {
    LatestOf(lib, StableOf(lib, registry, major))
  }

  lemma LatestOfGreatest(lib: Library, contracts: seq<Stable>) returns (latest: Stable)
    requires Sound(lib) && contracts != []
    ensures latest in contracts && LatestOf(lib, contracts) == VersionOf(latest.contract)
    ensures forall s :: s in contracts ==> lib.order(s.parsed, latest.parsed) <= 0
  {
    var cmp := (a: Stable, b: Stable) => lib.order(a.parsed, b.parsed);
    forall a, b ensures Opposed(cmp, a, b) { assert Opposed(lib.order, a.parsed, b.parsed); }
    forall a, b, c | Chain(cmp, a, b, c) ensures cmp(a, c) <= 0 { assert Chain(lib.order, a.parsed, b.parsed, c.parsed); }
    LastIsGreatest(cmp, contracts);
    latest := Last(Sort(cmp, contracts));
  }

  // ----- What is accepted

  /** `/^[1-9]\d*$/` and a safe integer. */
  predicate MajorKey(key: string) {
    Canonical(key) && key != "0" && Value(key) <= MAX_SAFE_INTEGER
  }

  predicate StableVersionIn(lib: Library, value: Json, major: nat) {
    && lib.parse(value).Some?
    && var v := lib.parse(value).value;
       v.prerelease == "" && v.build == "" && v.major == major
  }

  predicate TargetOk(lib: Library, byVersion: map<Json, Descriptor>, latest: Json, key: string, value: Json)
    requires MajorKey(key)
  {
    && StableVersionIn(lib, value, Value(key))
    && value in byVersion && byVersion[value].Contract? && byVersion[value].status == PUBLISHED
    && latest == value
  }

  predicate EntryOk(lib: Library, registry: seq<Descriptor>, key: string, value: Json) {
    MajorKey(key) && TargetOk(lib, ByVersion(registry), Latest(lib, registry, Value(key)), key, value)
  }

  ghost predicate Acceptable(lib: Library, targets: Targets, registry: seq<Descriptor>) {
    && targets.Targets?
    && (forall i :: 0 <= i < |registry| ==> Parses(lib, registry[i]))
    && (forall key :: key in targets.entries ==> EntryOk(lib, registry, key, targets.entries[key]))
    && (forall major :: major in StableMajors(lib, registry) ==> Digits(major) in targets.entries)
  }

  // ----- The validator

  ghost predicate CollectsAt(lib: Library, stable: map<nat, seq<Stable>>, registry: seq<Descriptor>, major: nat) {
    if StableOf(lib, registry, major) == [] then major !in stable
    else major in stable && stable[major] == StableOf(lib, registry, major)
  }

  ghost predicate Collects(lib: Library, stable: map<nat, seq<Stable>>, registry: seq<Descriptor>) {
    forall major: nat :: CollectsAt(lib, stable, registry, major)
  }

  function Grown(stable: map<nat, seq<Stable>>, s: Stable): map<nat, seq<Stable>> {
    var contracts := if s.parsed.major in stable then stable[s.parsed.major] else [];
    stable[s.parsed.major := contracts + [s]]
  }

  lemma CollectStep(lib: Library, stable: map<nat, seq<Stable>>, registry: seq<Descriptor>, n: nat)
    requires n < |registry| && Collects(lib, stable, registry[..n])
    ensures var d := registry[n];
            && Collects(lib, if IsStable(lib, d) then Grown(stable, Stable(d, lib.parse(d.version).value)) else stable,
                        registry[..n + 1])
            && ByVersion(registry[..n + 1]) == ByVersion(registry[..n])[VersionOf(d) := d]
  {
    var before, d := registry[..n], registry[n];
    var upTo := registry[..n + 1];
    assert upTo == before + [d] && upTo[..n] == before;
    var grown := if IsStable(lib, d) then Grown(stable, Stable(d, lib.parse(d.version).value)) else stable;
    forall major: nat ensures CollectsAt(lib, grown, upTo, major) {
      assert CollectsAt(lib, stable, before, major);
      StableOfSnoc(lib, before, d, major);
    }
  }

  method Collect(lib: Library, registry: seq<Descriptor>)
    returns (ok: bool, stable: map<nat, seq<Stable>>, byVersion: map<Json, Descriptor>)
    requires Sound(lib)
    ensures ok <==> forall i :: 0 <= i < |registry| ==> Parses(lib, registry[i])
    ensures ok ==> Collects(lib, stable, registry) && byVersion == ByVersion(registry)
  {
    stable, byVersion := map[], map[];
    var n := 0;
    while n < |registry|
      invariant n <= |registry|
      invariant forall i :: 0 <= i < n ==> Parses(lib, registry[i])
      invariant Collects(lib, stable, registry[..n])
      invariant byVersion == ByVersion(registry[..n])
    {
      var contract := registry[n];
      var parsed := lib.parse(VersionOf(contract));
      if parsed.None? {
        assert !Parses(lib, registry[n]);
        return false, stable, byVersion;
      }
      CollectStep(lib, stable, registry, n);
      byVersion := byVersion[VersionOf(contract) := contract];
      n := n + 1;
      if parsed.value.major < 1 || contract.status != PUBLISHED || parsed.value.prerelease != "" || parsed.value.build != "" {
        continue;
      }
      var contracts := if parsed.value.major in stable then stable[parsed.value.major] else [];
      stable := stable[parsed.value.major := contracts + [Stable(contract, parsed.value)]];
    }
    assert registry[..n] == registry;
    ok := true;
  }

  method CheckTarget(lib: Library, stable: map<nat, seq<Stable>>, byVersion: map<Json, Descriptor>, key: string, value: Json)
    returns (ok: bool)
    ensures ok <==> MajorKey(key) &&
                    TargetOk(lib, byVersion, LatestOf(lib, if Value(key) in stable then stable[Value(key)] else []), key, value)
  {
    if !MajorKey(key) { return false; }
    var major := Value(key);
    var parsed := lib.parse(value);
    if parsed.None? || parsed.value.prerelease != "" || parsed.value.build != "" { return false; }
    if parsed.value.major != major { return false; }
    if value !in byVersion || !byVersion[value].Contract? { return false; }
    if byVersion[value].status != PUBLISHED { return false; }
    var contracts := if major in stable then stable[major] else [];
    return LatestOf(lib, contracts) == value;
  }

  method CheckEntries(lib: Library, entries: map<string, Json>, stable: map<nat, seq<Stable>>,
                      byVersion: map<Json, Descriptor>, ghost registry: seq<Descriptor>)
    returns (ok: bool, configuredMajors: set<nat>)
    requires Collects(lib, stable, registry) && byVersion == ByVersion(registry)
    ensures ok <==> forall key :: key in entries ==> EntryOk(lib, registry, key, entries[key])
    ensures ok ==> forall major :: major in configuredMajors <==> Digits(major) in entries
  {
    configuredMajors := {};
    var keys := entries.Keys;
    while keys != {}
      invariant keys <= entries.Keys
      invariant forall key :: key in entries && key !in keys ==> EntryOk(lib, registry, key, entries[key])
      invariant forall key :: key in entries && key !in keys ==> Value(key) in configuredMajors
      invariant forall major :: major in configuredMajors ==> Digits(major) in entries
      decreases keys
    {
      var key :| key in keys;
      var accepted := CheckTarget(lib, stable, byVersion, key, entries[key]);
      EntryChecked(lib, stable, registry, key);
      if !accepted {
        assert !EntryOk(lib, registry, key, entries[key]);
        return false, {};
      }
      assert EntryOk(lib, registry, key, entries[key]);
      ValueDigits(key);
      configuredMajors := configuredMajors + {Value(key)};
      keys := keys - {key};
    }
    forall major | Digits(major) in entries ensures major in configuredMajors {
      DigitsValue(major);
    }
    ok := true;
  }

  method CheckMajors(ghost entries: map<string, Json>, majors0: set<nat>, configuredMajors: set<nat>) returns (ok: bool)
    requires forall major :: major in configuredMajors <==> Digits(major) in entries
    ensures ok <==> forall major :: major in majors0 ==> Digits(major) in entries
  {
    var majors := majors0;
    while majors != {}
      invariant majors <= majors0
      invariant forall major :: major in majors0 && major !in majors ==> major in configuredMajors
      decreases majors
    {
      var major :| major in majors;
      if major !in configuredMajors {
        assert Digits(major) !in entries;
        return false;
      }
      majors := majors - {major};
    }
    ok := true;
  }

  lemma CollectedMajors(lib: Library, stable: map<nat, seq<Stable>>, registry: seq<Descriptor>)
    requires Collects(lib, stable, registry)
    ensures stable.Keys == StableMajors(lib, registry)
  {
    forall major: nat ensures major in stable <==> major in StableMajors(lib, registry) {
      assert CollectsAt(lib, stable, registry, major);
      StableMajorsMembers(lib, registry, major);
    }
  }

  method ValidateSdkMajorTargets(lib: Library, targets: Targets, registry: seq<Descriptor>) returns (ok: bool)
    requires Sound(lib)
    ensures ok <==> Acceptable(lib, targets, registry)
  {
    if targets.NotAPlainObject? { return false; }
    var collected, stable, byVersion := Collect(lib, registry);
    if !collected { return false; }
    var entriesOk, configuredMajors := CheckEntries(lib, targets.entries, stable, byVersion, registry);
    if !entriesOk { return false; }
    CollectedMajors(lib, stable, registry);
    ok := CheckMajors(targets.entries, stable.Keys, configuredMajors);
  }

  lemma {:induction false} EntryChecked(lib: Library, stable: map<nat, seq<Stable>>, registry: seq<Descriptor>, key: string)
    requires Collects(lib, stable, registry)
    ensures MajorKey(key) ==>
              LatestOf(lib, if Value(key) in stable then stable[Value(key)] else []) == Latest(lib, registry, Value(key))
  {
    if MajorKey(key) { assert CollectsAt(lib, stable, registry, Value(key)); }
  }

  // ----- Exactly one target map

  /** Every stable major, spelled canonically, against its latest stable contract. */
  function Expected(lib: Library, registry: seq<Descriptor>): map<string, Json> {
    map key | key in (set major | major in StableMajors(lib, registry) :: Digits(major)) ::
      Latest(lib, registry, if ParseNumeric(key).Some? then ParseNumeric(key).value else 0)
  }

  lemma {:induction false} ExpectedAt(lib: Library, registry: seq<Descriptor>, major: nat)
    requires Sound(lib) && major in StableMajors(lib, registry)
    ensures MajorKey(Digits(major)) && Value(Digits(major)) == major
    ensures Digits(major) in Expected(lib, registry)
    ensures Expected(lib, registry)[Digits(major)] == Latest(lib, registry, major)
  {
    var i :| 0 <= i < |registry| && IsStable(lib, registry[i]) && lib.parse(registry[i].version).value.major == major;
    assert lib.parse(registry[i].version).Some?;
    DigitsValue(major);
  }

  /** The expected target of a major is a published stable contract of that major
      that no other one exceeds. */
  lemma LatestIsGreatest(lib: Library, registry: seq<Descriptor>, major: nat) returns (i: nat)
    requires Sound(lib) && major in StableMajors(lib, registry)
    ensures i < |registry| && StableIn(lib, registry[i], major) && registry[i].version == Latest(lib, registry, major)
    ensures forall j :: 0 <= j < |registry| && StableIn(lib, registry[j], major) ==>
              lib.order(lib.parse(registry[j].version).value, lib.parse(registry[i].version).value) <= 0
  {
    StableMajorsMembers(lib, registry, major);
    StableMembers(lib, registry, major);
    var contracts := StableOf(lib, registry, major);
    var latest := LatestOfGreatest(lib, contracts);
    i :| 0 <= i < |registry| && registry[i] == latest.contract;
    forall j | 0 <= j < |registry| && StableIn(lib, registry[j], major)
      ensures lib.order(lib.parse(registry[j].version).value, latest.parsed) <= 0
    {
      assert Stable(registry[j], lib.parse(registry[j].version).value) in contracts;
    }
  }

  ghost predicate DistinctAndParsing(lib: Library, registry: seq<Descriptor>) {
    (forall i :: 0 <= i < |registry| ==> Parses(lib, registry[i])) && Distinct(Versions(registry))
  }

  lemma {:induction false} ExpectedEntry(lib: Library, registry: seq<Descriptor>, major: nat)
    requires Sound(lib) && DistinctAndParsing(lib, registry) && major in StableMajors(lib, registry)
    ensures EntryOk(lib, registry, Digits(major), Expected(lib, registry)[Digits(major)])
  {
    ExpectedAt(lib, registry, major);
    var i := LatestIsGreatest(lib, registry, major);
    IndexFinds(registry, i);
  }

  lemma ExpectedIsAcceptable(lib: Library, registry: seq<Descriptor>)
    requires Sound(lib) && DistinctAndParsing(lib, registry)
    ensures Acceptable(lib, Targets(Expected(lib, registry)), registry)
  {
    var expected := Expected(lib, registry);
    forall major | major in StableMajors(lib, registry) ensures Digits(major) in expected {
      ExpectedAt(lib, registry, major);
    }
    forall key | key in expected ensures EntryOk(lib, registry, key, expected[key]) {
      var major :| major in StableMajors(lib, registry) && Digits(major) == key;
      ExpectedEntry(lib, registry, major);
    }
  }

  lemma AcceptedEntry(lib: Library, registry: seq<Descriptor>, key: string, value: Json)
    requires Sound(lib) && EntryOk(lib, registry, key, value)
    ensures key in Expected(lib, registry) && Expected(lib, registry)[key] == value
  {
    var major := Value(key);
    assert Latest(lib, registry, major).Text?;
    assert StableOf(lib, registry, major) != [];
    StableMajorsMembers(lib, registry, major);
    ExpectedAt(lib, registry, major);
    ValueDigits(key);
  }

  lemma EntriesAreExpected(lib: Library, registry: seq<Descriptor>, entries: map<string, Json>, key: string)
    requires Sound(lib) && Acceptable(lib, Targets(entries), registry) && key in entries
    ensures key in Expected(lib, registry) && entries[key] == Expected(lib, registry)[key]
  {
    AcceptedEntry(lib, registry, key, entries[key]);
  }

  lemma ExpectedKeysAreThere(lib: Library, registry: seq<Descriptor>, entries: map<string, Json>, key: string)
    requires Acceptable(lib, Targets(entries), registry) && key in Expected(lib, registry)
    ensures key in entries
  {
    var major :| major in StableMajors(lib, registry) && Digits(major) == key;
  }

  lemma SameMaps(a: map<string, Json>, b: map<string, Json>)
    requires forall key :: key in a ==> key in b && a[key] == b[key]
    requires forall key :: key in b ==> key in a
    ensures a == b
  {
  }

  lemma AcceptableIsExpected(lib: Library, registry: seq<Descriptor>, entries: map<string, Json>)
    requires Sound(lib) && Acceptable(lib, Targets(entries), registry)
    ensures entries == Expected(lib, registry)
  {
    var expected := Expected(lib, registry);
    forall key | key in entries ensures key in expected && entries[key] == expected[key] {
      EntriesAreExpected(lib, registry, entries, key);
    }
    forall key | key in expected ensures key in entries {
      ExpectedKeysAreThere(lib, registry, entries, key);
    }
    SameMaps(entries, expected);
  }

  /** Over a registry of valid contracts with distinct versions the validator
      accepts exactly one target map: each major of at least 1 that has a published
      contract without prerelease and build points at the greatest one, and there is
      no other key. */
  lemma AcceptsExactlyOne(registry: seq<Descriptor>, targets: Targets)
    requires Registered(registry)
    ensures Acceptable(SEMVER, targets, registry) <==> targets == Targets(Expected(SEMVER, registry))
  {
    SemVerIsSound();
    forall i | 0 <= i < |registry| ensures Parses(SEMVER, registry[i]) {
      assert ValidDescriptor(registry[i]);
    }
    ExpectedIsAcceptable(SEMVER, registry);
    if Acceptable(SEMVER, targets, registry) { AcceptableIsExpected(SEMVER, registry, targets.entries); }
  }
}
