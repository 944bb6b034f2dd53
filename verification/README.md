# Verified models of mxc

mxc runs untrusted commands inside operating-system sandboxes. This project
models the parts of it where correctness is hardest to see from the code, and
proves what they promise for every input, every run and every interleaving.

* **The Bubblewrap version probe** (`Probe*.dfy`). A blocking caller, a worker
  thread, a detached anchor process, a helper process and the `bwrap` child
  share three header words, a byte payload and two pipes. Each program is a
  class whose event handlers refine a step function; `ProbeSystem` composes
  them, `ProbeSafety` proves the end-to-end theorems over all runs, with chunked
  pipes, crashes and cancellation at any moment, and `ProbeProgress` bounds the
  way to publication. JSON is any codec whose decoding undoes its encoding and
  whose encodings hold no raw newline.
* **The `build.rs` lexer** (`BuildRs*.dfy`). The scanner loops refine a
  reference lexer, and the reference lexer is the exact inverse of writing
  tokens down. Which characters continue an identifier is a parameter.
* **Output capture and stream ownership** (`ProcessCapture.dfy`,
  `StdioOwnership.dfy`, `PtyReaders.dfy`). `wait_with_output` as a system of
  threads, bounded pipes and processes; the stdio hand-out machine; the closer
  list that pseudo-terminal closers share on the heap.
* **Semantic Versioning and the contract registry** (`SemVer*.dfy`,
  `Sorting.dfy`, `ContractRegistry.dfy`, `SdkTargets.dfy`), against sections 2,
  9, 10 and 11 of Semantic Versioning 2.0.0.
* **Lexical paths** (`LexicalPaths.dfy`, `PathResolution.dfy`,
  `Occurrences.dfy`, `ToolsPolicy.dfy`, `GitPaths.dfy`, `ProbeLookup.dfy`):
  normalisation laws, agreement of text tests with segment containment, and
  what tool discovery and git rebasing compute.
* **The state-aware envelope** (`Envelope.dfy`): a config is taken apart
  without loss.

`Options.dfy`, `Texts.dfy` and `Decimal.dfy` hold the shared vocabulary. Files,
directories, the working directory, `String.trim`, URL parsing, lower-casing and
UTF-8 decoding are function parameters; a working directory, where there is one,
is absolute, as the operating system gives it. The model follows the code; three
edges of its behaviour are worth knowing:

* `repoRelativeGitPath` of root/r differs from `toGitPath` of r in two families of
  inputs, and only there (`GitPaths.RebasingUndoesJoining`). Below the bare
  file-system root every non-empty r is refused (`FileSystemRootRefuses`). An r
  that climbs out of the root and comes back in is rebased although it has no git
  spelling of its own (`EscapingPathIsRebased`).
* A WSLC exec `network` without runtime settings leaves no trace in the envelope
  (`Envelope.EmptyNetworkIsLost`), and nothing else is lost
  (`Envelope.ConfigIsRecoverable`).
* `wait_with_output` waits for ever when the child exited and a descendant keeps
  a write end (`ProcessCapture.DescendantBlocksAnExitedCall`), and nothing else
  makes it do so after the wait (`ProcessCapture.StuckExactlyOnAHeldPipe`).

Verify everything with `dafny verify dfyconfig.toml`.

## Model

| member | source | states |
|---|---|---|
| ProbeSafety.CompletedIsGenuine | sdk/node/src/bwrap-probe-worker.ts:55-79 | in every run: if the worker won the result word and its payload decodes to `completed`, the helper printed exactly that result and no other, both streams are all the child ever wrote and within the limit, and teardown came first: the anchor is gone, its group was killed unless it crashed, and it had reaped the helper and flushed the line unless its watchdog gave up |
| ProbeSafety.PublishedAfterTeardown | sdk/node/src/bwrap-probe-worker.ts:134-166 | in every run, a published payload fits its length word and is the fitted first completion or no-result failure of a worker whose anchor has closed and is gone, with its group killed unless it crashed; without an anchor the worker only ever wins with the fitted error of a spawn that threw |
| ProbeProgress.PublicationFollows | sdk/node/src/bwrap-probe-worker.ts:119-166 | once the spawn threw or the anchor is gone, every continuation reaches publication within a computed number of deliveries, one is always due until then, and a caller still waiting can then wake |
| ProbeProgress.CompletedIsReachable | sdk/node/src/bwrap-probe-helper.ts:153-163 | for every faithful codec with room for it there is a run, from start-up to the exchange, that publishes a `completed` result |
| ProbeSafety.ConsumedIsGenuine | sdk/node/src/v1/platform.ts:824-845 | a `completed` result the caller consumed is one the helper printed, with the child's whole output |
| ProbeSafety.NoCancellationWindow | sdk/node/src/bwrap-probe-worker.ts:92-117 | after the caller cancels, its mark is never overwritten, and a worker past start-up has no live anchor, or has signalled it, or had stored its pid before the cancellation; while the anchor is open its supervision stays armed |
| ProbeSafety.PublishedIsStable | sdk/node/src/bwrap-probe-worker.ts:66-70 | from the moment the worker wins, shared memory is the same in every later state |
| ProbeSafety.LineIsJustified | sdk/node/src/bwrap-probe-worker.ts:119-133 | whatever the two chunkings and the anchor's forwarding, a line the worker reads decodes to the helper's one printed result or to a failure |
| ProbeSafety.RunInv | sdk/node/src/bwrap-probe-worker.ts:36-43 | the joint invariant of caller, worker, anchor, helper and child holds in every state of every run |
| ProbeWorker.FirstCompletionWins | sdk/node/src/bwrap-probe-worker.ts:73-166 | for a spawned anchor with or without a pid and every order of data, error, fatal, timeout, exit and close: shared memory is untouched until close, then holds the first completion asked for, during start-up or since (else the no-result fallback), fitted to the payload, and never changes again |
| ProbeWorker.PidlessAnchorWins | sdk/node/src/bwrap-probe-worker.ts:107-111 | with an anchor that got no pid, shared memory stays as it was until close and then holds exactly the no-pid failure, whatever else was asked for |
| ProbeWorker.Worker.PublishResult | sdk/node/src/bwrap-probe-worker.ts:55-71 | publishes once; an oversized result is replaced by the bound message; length and bytes are stored before the result word is exchanged from zero |
| ProbeWorker.Worker.CompleteAfterCleanup | sdk/node/src/bwrap-probe-worker.ts:73-79 | the first request is kept, the anchor signalled if asked, and published at once only without an open anchor |
| ProbeWorker.Worker.SignalAnchor | sdk/node/src/bwrap-probe-worker.ts:45-53 | one signal, only to a started anchor that has not exited |
| ProbeWorker.Worker.CheckHeader | sdk/node/src/bwrap-probe-worker.ts:92 | the first load of the result word decides whether anything is spawned |
| ProbeWorker.Worker.SpawnAnchor | sdk/node/src/bwrap-probe-worker.ts:94-112 | a spawn that throws publishes its error; one without a pid requests completion |
| ProbeWorker.Worker.StoreAnchorPid | sdk/node/src/bwrap-probe-worker.ts:113 | the pid word is stored before the second load |
| ProbeWorker.Worker.RecheckHeader | sdk/node/src/bwrap-probe-worker.ts:115-117 | a caller's mark seen on the second load signals the anchor |
| ProbeWorker.Worker.HandleData | sdk/node/src/bwrap-probe-worker.ts:119-133 | the first whole line is decoded and requested; an undecodable one requests a failure and stops the anchor |
| ProbeWorker.Worker.HandleClose | sdk/node/src/bwrap-probe-worker.ts:145-152 | close publishes what was requested, else the no-result failure |
| ProbeAnchor.RunKeepsInvariant | sdk/node/src/bwrap-probe-anchor.ts:22-94 | over every legal event order: at most one write, and it is the helper's text through its first newline or one failure; at most one kill of the helper; the group kill is issued exactly when closed and flushed, or by the grace timer of the watchdog |
| ProbeAnchor.NoKillAfterClose | sdk/node/src/bwrap-probe-anchor.ts:22-33 | the helper is never signalled after its close |
| ProbeAnchor.Anchor.StopHelper | sdk/node/src/bwrap-probe-anchor.ts:22-33 | only the first request kills, and only a started helper that has not closed |
| ProbeAnchor.Anchor.Finish | sdk/node/src/bwrap-probe-anchor.ts:43-50 | kills the owned group exactly when the helper is closed and the line flushed |
| ProbeAnchor.Anchor.Fail | sdk/node/src/bwrap-probe-anchor.ts:62-69 | writes one failure line, and only if nothing was written |
| ProbeAnchor.Anchor.HandleData | sdk/node/src/bwrap-probe-anchor.ts:77-88 | forwards through the first newline once, then stops the helper |
| ProbeAnchor.Anchor.HandleClose | sdk/node/src/bwrap-probe-anchor.ts:90-94 | records the close, writes the no-result failure if nothing was written, then finishes if ready |
| ProbeAnchor.Anchor.HandleWatchdog | sdk/node/src/bwrap-probe-anchor.ts:52-56 | stops the helper and arms the grace timer |
| ProbeHelper.CaptureKeepsPrefix | sdk/node/src/bwrap-probe-helper.ts:47-51 | for every chunking, the kept chunks concatenate to the stream's first min(total, limit) bytes and the count is the total |
| ProbeHelper.EmitsFirstOffer | sdk/node/src/bwrap-probe-helper.ts:53-58 | for every event history the helper prints exactly the first result any event offers, judged from the raw history, and never a second; `completed` carries both whole streams |
| ProbeHelper.Helper.EmitResult | sdk/node/src/bwrap-probe-helper.ts:53-58 | only the first result is printed, and it clears the deadline |
| ProbeHelper.Helper.Capture | sdk/node/src/bwrap-probe-helper.ts:47-51 | keeps what still fits under the limit and counts everything |
| ProbeHelper.Helper.HandleSpawnError | sdk/node/src/bwrap-probe-helper.ts:101-116 | anything but a missing file is reported at once; a missing file is checked again first |
| ProbeHelper.Helper.HandleLookup | sdk/node/src/bwrap-probe-helper.ts:118-140 | after a verdict nothing is started; otherwise the lookup is reported or the executable started |
| ProbeHelper.Helper.HandleStdout | sdk/node/src/bwrap-probe-helper.ts:141-144 | captures the chunk and reports overflow once the stream exceeds the limit |
| ProbeHelper.Helper.HandleClose | sdk/node/src/bwrap-probe-helper.ts:153-163 | reports completion with both captured streams unless a spawn error is being classified |
| ProbeLookup.SearchDirectories | sdk/node/src/bwrap-probe-helper.ts:60-70 | exactly the absolute entries of PATH and the fallbacks, each once, by first occurrence |
| ProbeLookup.FindIn | sdk/node/src/bwrap-probe-helper.ts:77-98 | the first executable file; else the first file, when none is executable; else missing, when there is no file |
| ProbeLookup.AnswerIsUnique | sdk/node/src/bwrap-probe-helper.ts:77-98 | the search order determines the answer |
| ProbeLookup.FindBwrap | sdk/node/src/bwrap-probe-helper.ts:77-98 | over any environment the answer is the search order's, and a reported path is absolute |
| BuildRsScanner.Tokenize | scripts/lib/build-rs-inputs.js:52-125 | for every text, the code view and string literals of its one token list |
| BuildRsScanner.NextToken | scripts/lib/build-rs-inputs.js:57-122 | one turn consumes exactly the reference lexer's next token and reports its share of the views |
| BuildRsScanner.RawStringStart | scripts/lib/build-rs-inputs.js:32-43 | finds the opening of a raw string exactly where the reference does, with its hash count |
| BuildRsScanner.CharLiteralEnd | scripts/lib/build-rs-inputs.js:20-28 | ends a character literal exactly where the reference does, within the escape window, else reports a lifetime |
| BuildRsScanner.SkipBlock | scripts/lib/build-rs-inputs.js:65-81 | skips a nested block comment to the reference's end and keeps exactly its newlines |
| BuildRsScanner.ScanString | scripts/lib/build-rs-inputs.js:94-110 | reads a string literal with escapes to its closing quote or the end of text |
| BuildRsScanner.ScanRaw | scripts/lib/build-rs-inputs.js:84-92 | reads a raw string to the first quote followed by as many hashes, or the end of text |
| BuildRsRoundTrip.LexRenders | scripts/lib/build-rs-inputs.js:52-125 | writing down the tokens of any text gives the text back |
| BuildRsRoundTrip.LexReadsBack | scripts/lib/build-rs-inputs.js:52-125 | every readable token list, written out, is lexed back to itself: nesting, escapes, hashes and the lifetime ambiguity included |
| BuildRsRoundTrip.LexIsReadable | scripts/lib/build-rs-inputs.js:52-125 | the tokens of any text form a readable list |
| BuildRsRoundTrip.UniqueTokens | scripts/lib/build-rs-inputs.js:52-125 | every text is written by exactly one readable token list |
| BuildRsRoundTrip.CommentsAreInvisible | scripts/lib/build-rs-inputs.js:45-51 | texts that differ only in comment contents, newlines apart, give the same code view and strings |
| ProcessCapture.OutputIsConserved | src/mxc-sdk/src/sandbox.rs:423-434 | in every state of every run each stream's accepted bytes are the captured ones followed by the buffered ones, and the buffer respects its capacity |
| ProcessCapture.ExitedOutputIsComplete | src/mxc-sdk/src/sandbox.rs:436-472 | every return follows both joins; a success that reports an exit carries everything either stream ever accepted, and no writer is left |
| ProcessCapture.NoWriterIsForever | src/mxc-sdk/src/sandbox.rs:448-450 | in every run, a pipe without writers has none in any later state and its content is final |
| ProcessCapture.FullPipeIsDrained | src/mxc-sdk/src/sandbox.rs:438-442 | a write that does not fit waits for its own reader alone: that reader has a step, after which the same write goes through |
| ProcessCapture.StuckExactlyOnAHeldPipe | src/mxc-sdk/src/sandbox.rs:448-464 | after the wait the call is stuck exactly when the reader it must join is parked on an empty, held pipe and the other reader has nothing to do; after an exit the holder is a descendant |
| ProcessCapture.DescendantBlocksAnExitedCall | src/mxc-sdk/src/sandbox.rs:451-464 | a run that gets stuck: the child forks and exits, the wait reports the exit, and the call waits for the descendant even with closers |
| ProcessCapture.CancellationUnblocks | src/mxc-sdk/src/sandbox.rs:451-460 | after a timeout or failed wait, with a closer for each stream still being read, the readers see the end of their stream whoever holds write ends, and the call is never stuck |
| ProcessCapture.SettledCallReturns | src/mxc-sdk/src/sandbox.rs:448-472 | once both streams are settled, the call takes at most a computed number of further steps in every interleaving and always has one until it returns |
| ProcessCapture.RunKeepsInvariant | src/mxc-sdk/src/sandbox.rs:423-473 | the invariant of pipes, readers and waiting thread holds in every state of every run |
| StdioOwnership.EndpointsAreConserved | src/mxc-sdk/src/sandbox.rs:280-363 | over every call sequence each endpoint is given out and still held together exactly as often as at the start |
| StdioOwnership.HandedOutAtMostOnce | src/mxc-sdk/src/sandbox.rs:312-345 | no two answers of a call sequence hand out the same endpoint |
| StdioOwnership.NeverBothKinds | src/mxc-sdk/src/sandbox.rs:281-290 | individual streams and the native bundle are never both handed out |
| StdioOwnership.AccessRecordsGifts | src/mxc-sdk/src/sandbox.rs:281-290 | the access field says exactly which kind of gift a call sequence has made |
| StdioOwnership.FailureKeepsEverything | src/mxc-sdk/src/core/mxc_common/sandbox_process.rs:64-102 | a refused or failed native request changes nothing, and it fails exactly when an offered, held stream cannot be duplicated |
| StdioOwnership.MxcProcess.TakeStdin | src/mxc-sdk/src/sandbox.rs:312-321 | the stdin step of the ownership machine |
| StdioOwnership.MxcProcess.TakeStdout | src/mxc-sdk/src/sandbox.rs:324-333 | the stdout step of the ownership machine |
| StdioOwnership.MxcProcess.TakeStderr | src/mxc-sdk/src/sandbox.rs:336-345 | the stderr step of the ownership machine |
| StdioOwnership.MxcProcess.DuplicateAndTake | src/mxc-sdk/src/core/mxc_common/sandbox_process.rs:68-102 | all duplications precede any take: a failure leaves all three streams held |
| StdioOwnership.MxcProcess.TakeNativeStdio | src/mxc-sdk/src/sandbox.rs:348-363 | the native step of the ownership machine, refused after an individual take |
| PtyReaders.CloserGroup.Close | src/mxc-sdk/src/sandbox.rs:494-506 | closes every reader on the shared list as it then stands, and changes nothing else |
| PtyReaders.MxcPtyProcess.TryCloneReader | src/mxc-sdk/src/sandbox.rs:605-615 | a failed clone changes nothing; an interruptible one is appended to the shared list |
| PtyReaders.MxcPtyProcess.StdoutCloser | src/mxc-sdk/src/sandbox.rs:617-630 | none while no clone came with a closer; otherwise a closer that refers to the shared list itself |
| PtyReaders.FireEarlyCloser | src/mxc-sdk/src/sandbox.rs:494-506 | from any state: obtain a closer, clone any number of readers, fire it: every interruptible reader cloned before or after is closed, and the others stay open |
| SemVerNumbers.CompareNumericIsExact | scripts/versioning/lib/version.js:32-36 | for canonical digit strings of any length the comparison is the sign of the difference of their values |
| SemVer.PrereleaseIdentifierIsSection9 | scripts/versioning/lib/version.js:19 | the identifier pattern accepts exactly the identifiers of section 9 |
| SemVerParsing.ParsePrints | scripts/versioning/lib/version.js:43-78 | printing any accepted version gives back the string it was parsed from, and its fields are well formed |
| SemVerParsing.PrintParses | scripts/versioning/lib/version.js:43-78 | parsing any printed well-formed version gives back its fields |
| SemVerParsing.AcceptsExactlyTheGrammar | scripts/versioning/lib/version.js:9-78 | exactly the strings of the grammar of sections 2, 9 and 10, with core numbers up to 2^53-1, are accepted |
| SemVerOrder.ComparePrerelease | scripts/versioning/lib/version.js:80-103 | the index loop computes the lexicographic order of dot-separated identifiers with the empty prerelease on top |
| SemVerOrder.VersionOrderIsTotal | scripts/versioning/lib/version.js:158-167 | zero exactly when core and prerelease agree, and swapping the operands swaps the sign |
| SemVerOrder.VersionOrderIsTransitive | scripts/versioning/lib/version.js:158-167 | transitive across numeric, alphanumeric, short and long prereleases |
| SemVerOrder.CompareIsSection11 | scripts/versioning/lib/version.js:145-167 | on full versions the comparison never throws and its sign is the precedence of section 11, stated on its own terms |
| SemVerOrder.ParsedIsFull | scripts/versioning/lib/version.js:145-156 | whatever parses can be compared |
| Sorting.SortSorts | scripts/versioning/lib/contract-registry.js:179 | sorting by a preorder gives a sorted permutation |
| ContractRegistry.RequestRootsForContract | scripts/versioning/lib/contract-registry.js:22-54 | accepts exactly non-empty lists of well-formed roots without repeated directory or definition, and returns their map |
| ContractRegistry.RootMapIsOneToOne | scripts/versioning/lib/contract-registry.js:27-53 | the returned map holds exactly the listed pairs, and no two directories share a definition |
| ContractRegistry.CheckDescriptor | scripts/versioning/lib/contract-registry.js:69-104 | accepts exactly the valid descriptors |
| ContractRegistry.ParseContractRegistry | scripts/versioning/lib/contract-registry.js:63-112 | accepts exactly non-empty lists of valid descriptors with distinct versions, and returns them with their index by version |
| ContractRegistry.LookupFinds | scripts/versioning/lib/contract-registry.js:105-108 | over distinct versions the index maps a version to a descriptor exactly when that descriptor is registered under it |
| SdkTargets.ValidateSdkMajorTargets | scripts/versioning/lib/contract-registry.js:114-194 | the loops, per-major lists and sorts decide exactly the declarative condition on targets, for any sound version library |
| SdkTargets.AcceptsExactlyOne | scripts/versioning/lib/contract-registry.js:145-193 | over a registry of valid contracts with distinct versions exactly one target map is accepted |
| SdkTargets.LatestIsGreatest | scripts/versioning/lib/contract-registry.js:178-186 | the version a major must target is a published stable contract of that major that none exceeds |
| SdkTargets.SemVerIsSound | scripts/versioning/lib/contract-registry.js:127 | the real parser and comparison are such a version library |
| LexicalPaths.RootedNormalize | src/mxc-sdk/src/policy.rs:146-177 | on a rooted path the result is the walk of its segments from the root with `..` clamped there, and leaves names only |
| LexicalPaths.NormalizedTidy | src/mxc-sdk/src/policy.rs:146-177 | for every path the result holds names only, after leading `..` where there is no root |
| LexicalPaths.NormalizeIdempotent | src/mxc-sdk/src/policy.rs:146-177 | normalising twice changes nothing, for every path |
| LexicalPaths.NormalizeJoin | src/mxc-sdk/src/policy.rs:131-177 | normalising a/b equals normalising (normalised a)/b for every a and relative b |
| PathResolution.NormalizeLexically | src/mxc-sdk/src/policy.rs:148-177 | the loop over a growing path buffer, with its pops and pushes on text, computes the walk over components |
| PathResolution.ResolvePath | src/mxc-sdk/src/policy.rs:131-144 | resolution joins a relative path to the working directory, if there is one, and normalises |
| PathResolution.ResolveIdempotent | src/mxc-sdk/src/policy.rs:131-144 | resolution is a projection, and absolute whenever there is a working directory |
| PathResolution.ResolveFromNormalized | src/mxc-sdk/src/policy.rs:131-144 | a relative path resolves alike from a working directory and from its normal form |
| PathResolution.CriticalIsSegmentPrefix | src/mxc-sdk/src/policy.rs:228-230 | on a normalised path the text test for a location is true exactly when the location's segments lead the path's |
| ToolsPolicy.CriticalMeansInside | src/mxc-sdk/src/policy.rs:199-231 | the test on the resolved path decides membership of the locations' trees |
| ToolsPolicy.CriticalLocations | src/mxc-sdk/src/policy.rs:218-227 | the eight locations, as segments and as text |
| ToolsPolicy.Deduplicate | src/mxc-sdk/src/policy.rs:180-196 | the distinct resolved paths by first occurrence |
| ToolsPolicy.Collect | src/mxc-sdk/src/policy.rs:339-355 | the candidates of PATH and of each known variable, in order |
| ToolsPolicy.AvailableToolsPolicy | src/mxc-sdk/src/policy.rs:332-375 | the read-only paths are exactly the resolved candidates that are directories and not critical, none missing, none twice, by first occurrence; the final deduplication changes nothing |
| ToolsPolicy.GrantsExactlyTheSafe | src/mxc-sdk/src/policy.rs:357-359 | a list of first occurrences of admitted resolved candidates holds only safe paths, and a candidate's resolution exactly when it is a directory outside every critical tree |
| ToolsPolicy.UnixToolsPolicy | src/mxc-sdk/src/policy.rs:321-375 | on a Unix host, for every environment: distinct paths, each the resolution of a candidate of PATH or a known variable, its own resolution, an existing directory outside every critical tree; and every candidate that resolves to such a directory is granted |
| Occurrences.OccurrencesUnique | src/mxc-sdk/src/policy.rs:180-196 | distinctness, membership and first-occurrence order determine the list |
| GitPaths.ToGitPath | scripts/versioning/lib/git-base.js:86-108 | the stack loop computes the collapsed path, or throws |
| GitPaths.ThrowsExactlyOnEscape | scripts/versioning/lib/git-base.js:95-101 | it throws exactly when some prefix of the segments has more `..` than names |
| GitPaths.GitPathIdempotent | scripts/versioning/lib/git-base.js:86-108 | a result has clean segments only and collapses to itself |
| GitPaths.RebasesExactlyBelow | scripts/versioning/lib/git-base.js:118-134 | an absolute path is rebased exactly when its segments begin with the root's, up to the platform's case folding, and gives the remaining segments; any other is refused; a root without segments admits only itself |
| GitPaths.RebasedJoin | scripts/versioning/lib/git-base.js:118-134 | what rebasing root/r gives for every r: the walk goes on from the root's segments, and escapes, leaves the tree, or gives the segments below the root |
| GitPaths.RebasingUndoesJoining | scripts/versioning/lib/git-base.js:118-134 | exactly when rebasing root/r agrees with the git spelling of r, refusals included: for an r that does not escape, unless the root is the bare file-system root and r is not empty; for an escaping r, unless its walk comes back below the root |
| GitPaths.EscapingPathIsRebased | scripts/versioning/lib/git-base.js:118-134 | `../a/x` has no git spelling, yet below `/a` it is rebased to `x` |
| GitPaths.FileSystemRootRefuses | scripts/versioning/lib/git-base.js:126-133 | below a repository at `/` even `x` is refused |
| Envelope.BuildEnvelope | sdk/node/src/state-aware-helper.ts:92-212 | refused exactly when the call is not acceptable; otherwise header, defined cross-cutting fields, and the rest under section and phase; the caller's record is not in the frame |
| Envelope.Author | sdk/node/src/state-aware-helper.ts:102-183 | validation decides acceptability and moves a WSLC exec network's runtime settings up |
| Envelope.CheckNetwork | sdk/node/src/state-aware-helper.ts:119-156 | accepts exactly the networks allowed for backend and phase |
| Envelope.CheckRuntime | sdk/node/src/state-aware-helper.ts:157-183 | accepts exactly runtime settings with an optional HTTP or HTTPS proxy on WSLC exec |
| Envelope.LiftAll | sdk/node/src/state-aware-helper.ts:191-201 | moves exactly the defined cross-cutting fields up and leaves exactly the others |
| Envelope.FieldLandsOnce | sdk/node/src/state-aware-helper.ts:184-211 | every defined field of an accepted config lands in exactly one place with its value; a field of the section is at the top level only where its name is the header's or the section's own |
| Envelope.NothingInvented | sdk/node/src/state-aware-helper.ts:184-211 | every field of an envelope is the header's or the config's |
| Envelope.ConfigIsRecoverable | sdk/node/src/state-aware-helper.ts:92-212 | the config can be rebuilt from its envelope up to undefined fields, exactly when no WSLC exec network without runtime settings was given |
| Envelope.EmptyNetworkIsLost | sdk/node/src/state-aware-helper.ts:138-140 | a WSLC exec call with an empty network is accepted and has the envelope of a call without one |

## Left out

- Real processes, signals, timers and stream internals of the probe: they are environment steps, enabled in any order the runtime documents.
- The worker's bootstrap error path (`publishStartupError` in sdk/node/src/v1/platform.ts), its test barriers, and the mapping of a decoded result to a detection verdict.
- The helper's second, hard timer that kills its child and exits: the helper may die at any moment in `ProbeSystem` instead.
- TerminateOwnedGroup: a group kill that itself fails makes the anchor exit instead; the model has the kill succeed, and an anchor that dies without killing its group is the crash step of `ProbeSystem`.
- The wording of failure details: it is a parameter.
- JSON text: encode and decode are parameters; the payload is taken to have room for the bound message.
- Tokenize: characters are Unicode scalar values, where JavaScript indexes UTF-16 units, so texts with characters beyond the Basic Multilingual Plane, which are two units there, are not covered.
- CharLiteralEnd: a quoted character beyond the Basic Multilingual Plane is a literal here; the code sees two units and falls through as for a lifetime.
- `scanBuildRs` regular expressions, cargo, git and file reading around the lexer.
- `wait_with_output` is a system of steps on values, not a method: Dafny has no threads. A read after a closer fired returns end of stream, as the closer documents.
- `MxcPtyProcess::wait`: its drain thread is not joined on every path, and the poll loop is timing.
- The lock around the closer list: one call runs at a time in `PtyReaders`.
- Error texts and error kinds of the registry, version and envelope code: a refusal is a refusal. `JSON.parse` of the registry text is outside the model.
- ValidateSdkMajorTargets: the order in which several faults would be reported is not modelled, because any fault refuses.
- Windows branches of `policy.rs` (prefixes, case folding, ACLs, PowerShell history), and its user-profile and temporary-file policies.
- Non-UTF-8 paths and the general form of `PathBuf::pop`: `LexicalPaths.Pop` is only applied to buffers the loop itself has built.
- RepoRelative: lower-casing is letter by letter, so letters whose lower case has another length are not covered; a non-string path is outside the types.
- `backendForSandboxId`, telemetry, option structs and enum mappings: easy facts, or plain object look-ups with inherited keys.
- `sdk/dotnet`, backends, build scripts, fuzzing and samples.
