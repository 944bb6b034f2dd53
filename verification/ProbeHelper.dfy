/**
 The probe helper: it looks `bwrap` up, runs `bwrap --version` with bounded
 capture under a deadline, and prints one result line.

 `State` and `Next` specify the event handlers; `Helper` is the event-driven
 program itself, each handler proved to refine `Next`. `FirstOffer` is the
 reference: it reads only the history of raw events.
 */
module ProbeHelper {
  import opened Options
  import opened ProbeWire

  datatype Lookup = Found(path: string) | NotExecutable(path: string) | Missing

  datatype SpawnFailure = SpawnFailure(enoent: bool, message: string)

  datatype Stage = Looking | Running(path: string) | Over

  datatype State = State(
    stage: Stage,
    finished: bool,
    timerArmed: bool,
    classifying: bool,
    statPending: Option<string>,
    stdoutLength: nat,
    stderrLength: nat,
    stdoutChunks: seq<Text>,
    stderrChunks: seq<Text>,
    emitted: seq<ProbeResult>)  // results handed to process.stdout.write

  const START := State(Looking, false, true, false, None, 0, 0, [], [], [])

  /** What the environment can deliver to the helper's event loop. */
  datatype Event =
    | Deadline
    | LookupDone(lookup: Lookup, failure: Option<SpawnFailure>)  // failure: `spawn` threw
    | StdoutData(chunk: Text)
    | StderrData(chunk: Text)
    | ChildError(error: SpawnFailure)
    | StatDone(present: bool)
    | ChildClose(status: Option<int>, signal: Option<string>)
    | Rejected(detail: string)

  datatype Env = Env(utf8: Text -> string, outputLimit: nat, messages: Messages)

  // ----- Specification of the handlers

  function Emit(s: State, r: ProbeResult): State {
    if s.finished then s
    else s.(finished := true, timerArmed := false, emitted := s.emitted + [r])
  }

  function Captured(limit: nat, chunks: seq<Text>, chunk: Text, currentLength: nat): seq<Text> {
    if currentLength < limit
    then chunks + [chunk[..Min(limit - currentLength, |chunk|)]]
    else chunks
  }

  function SpawnFailed(s: State, path: string, error: SpawnFailure): State {
    if !error.enoent then Emit(s, SpawnError(error.message))
    else s.(statPending := Some(path))
  }

  function OnLookup(env: Env, s: State, lookup: Lookup, failure: Option<SpawnFailure>): State {
    if s.finished then s.(stage := Over)
    else match lookup
      case Missing => Emit(s.(stage := Over), NotFound)
      case NotExecutable(path) => Emit(s.(stage := Over), SpawnError(env.messages.notExecutable(path)))
      case Found(path) =>
        if failure.Some? then SpawnFailed(s.(stage := Over), path, failure.value)
        else s.(stage := Running(path))
  }

  function OnStdout(env: Env, s: State, chunk: Text): State {
    var s' := s.(
      stdoutChunks := Captured(env.outputLimit, s.stdoutChunks, chunk, s.stdoutLength),
      stdoutLength := s.stdoutLength + |chunk|);
    if s'.stdoutLength > env.outputLimit then Emit(s', Overflow) else s'
  }

  function OnStderr(env: Env, s: State, chunk: Text): State {
    var s' := s.(
      stderrChunks := Captured(env.outputLimit, s.stderrChunks, chunk, s.stderrLength),
      stderrLength := s.stderrLength + |chunk|);
    if s'.stderrLength > env.outputLimit then Emit(s', Overflow) else s'
  }

  function OnClose(env: Env, s: State, status: Option<int>, signal: Option<string>): State
    requires s.stage.Running?
  {
    if s.classifying then s
    else Emit(s, Completed(s.stage.path, status, signal,
                           env.utf8(Concat(s.stdoutChunks)), env.utf8(Concat(s.stderrChunks))))
  }

  function OnStat(env: Env, s: State, present: bool): State
    requires s.statPending.Some?
  {
    var s' := s.(statPending := None);
    if present then Emit(s', SpawnError(env.messages.missingLoader(s.statPending.value)))
    else Emit(s', NotFound)
  }

  /** Whether a handler for the event is installed in this state. */
  predicate Listening(s: State, e: Event) {
    match e
    case Deadline => s.timerArmed
    case LookupDone(_, _) => s.stage.Looking?
    case StdoutData(_) => s.stage.Running?
    case StderrData(_) => s.stage.Running?
    case ChildError(_) => s.stage.Running?
    case ChildClose(_, _) => s.stage.Running?
    case StatDone(_) => s.statPending.Some?
    case Rejected(_) => true
  }

  /** One event-loop turn; an event nothing listens for changes nothing. */
  function Next(env: Env, s: State, e: Event): State {
    if !Listening(s, e) then s else
    match e
    case Deadline => Emit(s, Timeout)
    case LookupDone(lookup, failure) => OnLookup(env, s, lookup, failure)
    case StdoutData(chunk) => OnStdout(env, s, chunk)
    case StderrData(chunk) => OnStderr(env, s, chunk)
    case ChildError(error) => SpawnFailed(s.(classifying := true), s.stage.path, error)
    case ChildClose(status, signal) => OnClose(env, s, status, signal)
    case StatDone(present) => OnStat(env, s, present)
    case Rejected(detail) => Emit(s, SpawnError(detail))
  }

  function Run(env: Env, events: seq<Event>): State {
    if events == [] then START
    else Next(env, Run(env, events[..|events| - 1]), events[|events| - 1])
  }

  // ----- Capture against the whole stream

  /** For every chunking, capture keeps exactly the stream's first
      `min(total, outputLimit)` bytes and counts all of them. */
  lemma {:induction false} CaptureStep(limit: nat, chunks: seq<Text>, stream: Text, chunk: Text)
    requires Concat(chunks) == stream[..Min(|stream|, limit)]
    ensures var all := stream + chunk;
            Concat(Captured(limit, chunks, chunk, |stream|)) == all[..Min(|all|, limit)]
  {
    var all := stream + chunk;
    if |stream| < limit {
      var kept := chunk[..Min(limit - |stream|, |chunk|)];
      ConcatSnoc(chunks, kept);
      assert all[..Min(|all|, limit)] == stream + kept;
    } else {
      assert all[..limit] == stream[..limit];
    }
  }

  function CaptureAll(limit: nat, pieces: seq<Text>): (seq<Text>, nat) {
    if pieces == [] then ([], 0)
    else
      var (chunks, length) := CaptureAll(limit, pieces[..|pieces| - 1]);
      var piece := pieces[|pieces| - 1];
      (Captured(limit, chunks, piece, length), length + |piece|)
  }

  lemma {:induction false} CaptureKeepsPrefix(limit: nat, pieces: seq<Text>)
    ensures var (chunks, length) := CaptureAll(limit, pieces);
            && length == |Concat(pieces)|
            && Concat(chunks) == Concat(pieces)[..Min(length, limit)]
  {
    if pieces != [] {
      var front := pieces[..|pieces| - 1];
      CaptureKeepsPrefix(limit, front);
      CaptureStep(limit, CaptureAll(limit, front).0, Concat(front), pieces[|pieces| - 1]);
    }
  }

  // ----- The reference: the first result any event offers

  function Stdout(events: seq<Event>): Text {
    if events == [] then [] else
    var rest := Stdout(events[..|events| - 1]);
    match events[|events| - 1]
    case StdoutData(chunk) => if Started(events[..|events| - 1]).Some? then rest + chunk else rest
    case _ => rest
  }

  function Stderr(events: seq<Event>): Text {
    if events == [] then [] else
    var rest := Stderr(events[..|events| - 1]);
    match events[|events| - 1]
    case StderrData(chunk) => if Started(events[..|events| - 1]).Some? then rest + chunk else rest
    case _ => rest
  }

  /** The first lookup decides: the executable it found, if `spawn` succeeded on it. */
  function FirstLookup(events: seq<Event>): Option<Event> {
    if events == [] then None else
    var rest := FirstLookup(events[..|events| - 1]);
    if rest.Some? then rest
    else if events[|events| - 1].LookupDone? then Some(events[|events| - 1]) else None
  }

  function Started(events: seq<Event>): Option<string> {
    match FirstLookup(events)
    case Some(LookupDone(Found(path), None)) => Some(path)
    case _ => None
  }

  predicate HasChildError(events: seq<Event>) {
    events != [] && (
      || HasChildError(events[..|events| - 1])
      || (events[|events| - 1].ChildError? && Started(events[..|events| - 1]).Some?))
  }

  /** The executable whose existence is still being checked after an ENOENT. */
  function StatTarget(events: seq<Event>): Option<string> {
    if events == [] then None else
    var past := events[..|events| - 1];
    StatTargetAfter(StatTarget(past), past, events[|events| - 1])
  }

  function StatTargetAfter(target: Option<string>, past: seq<Event>, e: Event): Option<string> {
    match e
    case LookupDone(Found(path), Some(error)) =>
      if FirstLookup(past).None? && error.enoent then Some(path) else target
    case ChildError(error) => if error.enoent && Started(past).Some? then Started(past) else target
    case StatDone(_) => None
    case _ => target
  }

  /** The result an event calls for, judged from the events before it alone. */
  function Offer(env: Env, past: seq<Event>, e: Event): Option<ProbeResult> {
    match e
    case Deadline => Some(Timeout)
    case Rejected(detail) => Some(SpawnError(detail))
    case LookupDone(lookup, failure) =>
      if FirstLookup(past).Some? then None else (
        match lookup
        case Missing => Some(NotFound)
        case NotExecutable(path) => Some(SpawnError(env.messages.notExecutable(path)))
        case Found(_) =>
          if failure.Some? && !failure.value.enoent then Some(SpawnError(failure.value.message)) else None)
    case StdoutData(_) =>
      if |Stdout(past + [e])| > env.outputLimit && Started(past).Some? then Some(Overflow) else None
    case StderrData(_) =>
      if |Stderr(past + [e])| > env.outputLimit && Started(past).Some? then Some(Overflow) else None
    case ChildError(error) =>
      if Started(past).Some? && !error.enoent then Some(SpawnError(error.message)) else None
    case StatDone(present) =>
      if StatTarget(past).None? then None
      else if present then Some(SpawnError(env.messages.missingLoader(StatTarget(past).value)))
      else Some(NotFound)
    case ChildClose(status, signal) =>
      if Started(past).None? || HasChildError(past) then None
      else Some(Completed(Started(past).value, status, signal,
                          env.utf8(Stdout(past)), env.utf8(Stderr(past))))
  }

  function FirstOffer(env: Env, events: seq<Event>): Option<ProbeResult> {
    if events == [] then None else
    var past := events[..|events| - 1];
    var rest := FirstOffer(env, past);
    if rest.Some? then rest else Offer(env, past, events[|events| - 1])
  }

  ghost predicate Tracks(env: Env, s: State, events: seq<Event>) {
    && s.finished == FirstOffer(env, events).Some?
    && s.emitted == (if s.finished then [FirstOffer(env, events).value] else [])
    && (!s.finished ==>
         && s.timerArmed
         && s.stage.Looking? == FirstLookup(events).None?
         && s.stage.Running? == Started(events).Some?
         && (s.stage.Running? ==> s.stage.path == Started(events).value)
         && s.classifying == HasChildError(events)
         && s.statPending == StatTarget(events)
         && s.stdoutLength == |Stdout(events)| <= env.outputLimit
         && s.stderrLength == |Stderr(events)| <= env.outputLimit
         && Concat(s.stdoutChunks) == Stdout(events)
         && Concat(s.stderrChunks) == Stderr(events))
  }

  /** One unfolding of the reference at the latest event. */
  lemma {:induction false} Unfold(env: Env, past: seq<Event>, e: Event)
    ensures var all := past + [e];
            && FirstOffer(env, all) == (if FirstOffer(env, past).Some? then FirstOffer(env, past) else Offer(env, past, e))
            && FirstLookup(all) == (if FirstLookup(past).Some? then FirstLookup(past)
                                    else if e.LookupDone? then Some(e) else None)
            && HasChildError(all) == (HasChildError(past) || (e.ChildError? && Started(past).Some?))
            && StatTarget(all) == StatTargetAfter(StatTarget(past), past, e)
            && Stdout(all) == (if e.StdoutData? && Started(past).Some? then Stdout(past) + e.chunk else Stdout(past))
            && Stderr(all) == (if e.StderrData? && Started(past).Some? then Stderr(past) + e.chunk else Stderr(past))
  {
    assert (past + [e])[..|past|] == past;
  }

  lemma TracksStdout(env: Env, s: State, past: seq<Event>, e: Event)
    requires Tracks(env, s, past) && !s.finished
    requires e.StdoutData?
    ensures Tracks(env, Next(env, s, e), past + [e])
  {
    Unfold(env, past, e);
    if s.stage.Running? {
      assert Stdout(past)[..Min(|Stdout(past)|, env.outputLimit)] == Stdout(past);
      CaptureStep(env.outputLimit, s.stdoutChunks, Stdout(past), e.chunk);
    }
  }

  lemma TracksStderr(env: Env, s: State, past: seq<Event>, e: Event)
    requires Tracks(env, s, past) && !s.finished
    requires e.StderrData?
    ensures Tracks(env, Next(env, s, e), past + [e])
  {
    Unfold(env, past, e);
    if s.stage.Running? {
      assert Stderr(past)[..Min(|Stderr(past)|, env.outputLimit)] == Stderr(past);
      CaptureStep(env.outputLimit, s.stderrChunks, Stderr(past), e.chunk);
    }
  }

  lemma TracksLookup(env: Env, s: State, past: seq<Event>, e: Event)
    requires Tracks(env, s, past) && !s.finished
    requires e.LookupDone?
    ensures Tracks(env, Next(env, s, e), past + [e])
  {
    Unfold(env, past, e);
  }

  lemma TracksChildError(env: Env, s: State, past: seq<Event>, e: Event)
    requires Tracks(env, s, past) && !s.finished
    requires e.ChildError?
    ensures Tracks(env, Next(env, s, e), past + [e])
  {
    Unfold(env, past, e);
  }

  lemma TracksVerdict(env: Env, s: State, past: seq<Event>, e: Event)
    requires Tracks(env, s, past) && !s.finished
    requires e.Deadline? || e.StatDone? || e.ChildClose? || e.Rejected?
    ensures Tracks(env, Next(env, s, e), past + [e])
  {
    Unfold(env, past, e);
  }

  lemma TracksStep(env: Env, s: State, past: seq<Event>, e: Event)
    requires Tracks(env, s, past)
    ensures Tracks(env, Next(env, s, e), past + [e])
  {
    if s.finished {
      Unfold(env, past, e);
      StaysFinished(env, s, e);
    } else {
      match e
      case StdoutData(_) => TracksStdout(env, s, past, e);
      case StderrData(_) => TracksStderr(env, s, past, e);
      case LookupDone(_, _) => TracksLookup(env, s, past, e);
      case ChildError(_) => TracksChildError(env, s, past, e);
      case _ => TracksVerdict(env, s, past, e);
    }
  }

  lemma StaysFinished(env: Env, s: State, e: Event)
    requires s.finished
    ensures Next(env, s, e).finished && Next(env, s, e).emitted == s.emitted
  {
  }

  /** Whatever order deadline, overflow, spawn errors, rejection and close come
      in, the helper prints exactly the first result any of them offers: never a
      second one, and `completed` only with both whole streams. */
  lemma {:induction false} EmitsFirstOffer(env: Env, events: seq<Event>)
    ensures Tracks(env, Run(env, events), events)
  {
    if events != [] {
      var past := events[..|events| - 1];
      EmitsFirstOffer(env, past);
      TracksStep(env, Run(env, past), past, events[|events| - 1]);
      assert past + [events[|events| - 1]] == events;
    }
  }

  // ----- The program

  class Helper {
    const env: Env
    var stage: Stage
    var finished: bool
    var timerArmed: bool
    var classifying: bool
    var statPending: Option<string>
    var stdoutLength: nat
    var stderrLength: nat
    var stdoutChunks: seq<Text>
    var stderrChunks: seq<Text>
    var emitted: seq<ProbeResult>

    function View(): State
      reads this
    {
      State(stage, finished, timerArmed, classifying, statPending,
            stdoutLength, stderrLength, stdoutChunks, stderrChunks, emitted)
    }

    constructor (env: Env)
      ensures View() == START && this.env == env
    {
      this.env := env;
      stage, finished, timerArmed, classifying, statPending := Looking, false, true, false, None;
      stdoutLength, stderrLength, stdoutChunks, stderrChunks := 0, 0, [], [];
      emitted := [];
    }

    method EmitResult(r: ProbeResult)
      modifies this
      ensures View() == Emit(old(View()), r)
    {
      if finished { return; }
      finished := true;
      timerArmed := false;
      emitted := emitted + [r];
    }

    method Capture(chunks: seq<Text>, chunk: Text, currentLength: nat)
      returns (kept: seq<Text>, length: nat)
      ensures kept == Captured(env.outputLimit, chunks, chunk, currentLength)
      ensures length == currentLength + |chunk|
    {
      kept := chunks;
      var remaining := if env.outputLimit - currentLength > 0 then env.outputLimit - currentLength else 0;
      if remaining > 0 {
        kept := kept + [chunk[..if remaining < |chunk| then remaining else |chunk|]];
      }
      length := currentLength + |chunk|;
    }

    method HandleSpawnError(executable: string, error: SpawnFailure)
      modifies this
      ensures View() == SpawnFailed(old(View()), executable, error)
    {
      if !error.enoent {
        EmitResult(SpawnError(error.message));
        return;
      }
      statPending := Some(executable);
    }

    method HandleDeadline()
      requires timerArmed
      modifies this
      ensures View() == Next(env, old(View()), Deadline)
    {
      EmitResult(Timeout);
    }

    method HandleLookup(lookup: Lookup, failure: Option<SpawnFailure>)
      requires stage.Looking?
      modifies this
      ensures View() == Next(env, old(View()), LookupDone(lookup, failure))
    {
      stage := Over;
      if finished { return; }
      if lookup.Missing? {
        EmitResult(NotFound);
        return;
      }
      if lookup.NotExecutable? {
        EmitResult(SpawnError(env.messages.notExecutable(lookup.path)));
        return;
      }
      if failure.Some? {
        HandleSpawnError(lookup.path, failure.value);
        return;
      }
      stage := Running(lookup.path);
    }

    method HandleStdout(chunk: Text)
      requires stage.Running?
      modifies this
      ensures View() == Next(env, old(View()), StdoutData(chunk))
    {
      stdoutChunks, stdoutLength := Capture(stdoutChunks, chunk, stdoutLength);
      if stdoutLength > env.outputLimit { EmitResult(Overflow); }
    }

    method HandleStderr(chunk: Text)
      requires stage.Running?
      modifies this
      ensures View() == Next(env, old(View()), StderrData(chunk))
    {
      stderrChunks, stderrLength := Capture(stderrChunks, chunk, stderrLength);
      if stderrLength > env.outputLimit { EmitResult(Overflow); }
    }

    method HandleChildError(error: SpawnFailure)
      requires stage.Running?
      modifies this
      ensures View() == Next(env, old(View()), ChildError(error))
    {
      classifying := true;
      HandleSpawnError(stage.path, error);
    }

    method HandleStat(present: bool)
      requires statPending.Some?
      modifies this
      ensures View() == Next(env, old(View()), StatDone(present))
    {
      var executable := statPending.value;
      statPending := None;
      if !present {
        EmitResult(NotFound);
        return;
      }
      EmitResult(SpawnError(env.messages.missingLoader(executable)));
    }

    method HandleClose(status: Option<int>, signal: Option<string>)
      requires stage.Running?
      modifies this
      ensures View() == Next(env, old(View()), ChildClose(status, signal))
    {
      if classifying { return; }
      EmitResult(Completed(stage.path, status, signal,
                           env.utf8(Concat(stdoutChunks)), env.utf8(Concat(stderrChunks))));
    }

    method HandleRejection(detail: string)
      modifies this
      ensures View() == Next(env, old(View()), Rejected(detail))
    {
      EmitResult(SpawnError(detail));
    }
  }
}
