/**
 Where the probe helper looks for the bubblewrap executable: the absolute
 directories of `PATH` and the fallbacks, and the first candidate in them that
 can be run.
 */
module ProbeLookup {
  import opened Options
  import opened Texts
  import opened LexicalPaths
  import opened Occurrences
  import opened ProbeHelper

  /** The file system as the lookup sees it. */
  datatype Files = Files(isFile: string -> bool, canExecute: string -> bool)

  function Entries(pathValue: Option<string>, fallbacks: seq<string>): seq<string> {
    Split(if pathValue.Some? then pathValue.value else "", ':') + fallbacks
  }

  method Distinct(entries: seq<string>, absolute: string -> bool) returns (directories: seq<string>)
    ensures FirstOccurrences(directories, entries, absolute)
  {
    directories := [];
    for i := 0 to |entries|
      invariant FirstOccurrences(directories, entries[..i], absolute)
    {
      var directory := entries[i];
      assert entries[..i + 1] == entries[..i] + [directory];
      OccurrencesAppend(directories, entries[..i], directory, absolute);
      if absolute(directory) && directory !in directories {
        directories := directories + [directory];
      }
    }
    assert entries[..|entries|] == entries;
  }

  /** `searchDirectories`: absolute entries only, each once, in search order. */
  method SearchDirectories(pathValue: Option<string>, fallbacks: seq<string>) returns (directories: seq<string>)
    ensures FirstOccurrences(directories, Entries(pathValue, fallbacks), IsAbsolute)
  {
    directories := Distinct(Entries(pathValue, fallbacks), IsAbsolute);
  }

  function Candidate(directory: string): string {
    directory + (if directory != "" && directory[|directory| - 1] == '/' then "" else "/") + "bwrap"
  }

  predicate Runs(files: Files, path: string) {
    files.isFile(path) && files.canExecute(path)
  }

  predicate NoneRuns(files: Files, directories: seq<string>, count: nat)
    requires count <= |directories|
  {
    forall i :: 0 <= i < count ==> !Runs(files, Candidate(directories[i]))
  }

  predicate NoFile(files: Files, directories: seq<string>, count: nat)
    requires count <= |directories|
  {
    forall i :: 0 <= i < count ==> !files.isFile(Candidate(directories[i]))
  }

  /** The answer the search order calls for. */
  ghost predicate Answers(r: Lookup, files: Files, directories: seq<string>) {
    match r
    case Found(path) =>
      exists i :: 0 <= i < |directories| && path == Candidate(directories[i]) &&
                  Runs(files, path) && NoneRuns(files, directories, i)
    case NotExecutable(path) =>
      NoneRuns(files, directories, |directories|) &&
      exists i :: 0 <= i < |directories| && path == Candidate(directories[i]) &&
                  files.isFile(path) && NoFile(files, directories, i)
    case Missing => NoFile(files, directories, |directories|)
  }

  /** There is only one such answer. */
  lemma AnswerIsUnique(a: Lookup, b: Lookup, files: Files, directories: seq<string>)
    requires Answers(a, files, directories) && Answers(b, files, directories)
    ensures a == b
  {
    if a.Found? && b.Found? {
      var i :| 0 <= i < |directories| && a.path == Candidate(directories[i]) && NoneRuns(files, directories, i);
      var j :| 0 <= j < |directories| && b.path == Candidate(directories[j]) && NoneRuns(files, directories, j);
    } else if a.NotExecutable? && b.NotExecutable? {
      var i :| 0 <= i < |directories| && a.path == Candidate(directories[i]) && NoFile(files, directories, i);
      var j :| 0 <= j < |directories| && b.path == Candidate(directories[j]) && NoFile(files, directories, j);
    }
  }

  method FindIn(directories: seq<string>, files: Files) returns (r: Lookup)
    ensures Answers(r, files, directories)
  {
    var notExecutable: Option<string> := None;
    for i := 0 to |directories|
      invariant NoneRuns(files, directories, i)
      invariant notExecutable.None? ==> NoFile(files, directories, i)
      invariant notExecutable.Some? ==>
                  exists j :: 0 <= j < i && notExecutable.value == Candidate(directories[j]) &&
                              files.isFile(notExecutable.value) && NoFile(files, directories, j)
    {
      var candidate := Candidate(directories[i]);
      if !files.isFile(candidate) { continue; }
      if files.canExecute(candidate) { return Found(candidate); }
      if notExecutable.None? { notExecutable := Some(candidate); }
    }
    r := if notExecutable.None? then Missing else NotExecutable(notExecutable.value);
  }

  /** `findBwrap` over an environment: a found path is never below a relative entry. */
  method FindBwrap(pathValue: Option<string>, fallbacks: seq<string>, files: Files)
    returns (r: Lookup, ghost directories: seq<string>)
    ensures FirstOccurrences(directories, Entries(pathValue, fallbacks), IsAbsolute)
    ensures Answers(r, files, directories)
    ensures !r.Missing? ==> IsAbsolute(r.path)
  {
    var searched := SearchDirectories(pathValue, fallbacks);
    directories := searched;
    r := FindIn(searched, files);
    if !r.Missing? {
      var i :| 0 <= i < |searched| && r.path == Candidate(searched[i]);
      assert searched[i] in searched;
    }
  }
}
