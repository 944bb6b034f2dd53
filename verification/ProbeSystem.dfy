/**
 The whole probe: caller, worker, anchor, helper and the `bwrap` child running
 together. Pipes deliver text in arbitrary chunks, processes may die at any
 time, and the caller may give up at any time; `Step` is the union of all their
 steps and the theorems hold for every run.
 */
module ProbeSystem {
  import opened Options
  import opened ProbeWire
  import H = ProbeHelper
  import A = ProbeAnchor
  import W = ProbeWorker

  datatype Caller = Waiting | Cancelled(pidSeen: int) | Consumed(decoded: Option<ProbeResult>)

  /** The `bwrap --version` process and whatever inherits its two pipes. */
  datatype Child = Child(stdout: Text, stderr: Text, stdoutRead: nat, stderrRead: nat, closed: bool, closeSeen: bool)

  datatype AnchorProcess = AnchorProcess(
    state: A.State,
    alive: bool,
    crashed: bool,
    graceFired: bool,
    sent: nat)             // bytes of `state.line` that reached the pipe

  datatype HelperProcess = HelperProcess(
    state: H.State,
    alive: bool,
    sent: nat)             // bytes of the helper's output that reached the pipe

  datatype System = System(
    caller: Caller,
    worker: W.State,
    threw: Option<string>, // the error of a `spawn` that threw
    shared: W.Shared,
    anchor: AnchorProcess,
    helper: HelperProcess,
    child: Child)

  datatype Config = Config(codec: Codec, outputLimit: nat, capacity: nat)

  function WorkerConfig(cfg: Config): W.Config {
    W.Config(cfg.codec, cfg.capacity)
  }

  function HelperEnv(cfg: Config): H.Env {
    H.Env(cfg.codec.utf8, cfg.outputLimit, cfg.codec.messages)
  }

  ghost predicate Valid(cfg: Config) {
    Faithful(cfg.codec) && W.ValidConfig(WorkerConfig(cfg))
  }

  function Printed(codec: Codec, emitted: seq<ProbeResult>): Text {
    if emitted == [] then []
    else Printed(codec, emitted[..|emitted| - 1]) + Line(codec, emitted[|emitted| - 1])
  }

  function HelperText(cfg: Config, h: HelperProcess): Text {
    Printed(cfg.codec, h.state.emitted)
  }

  datatype Event =
    | CallerTimesOut
    | CallerWakes
    | WorkerLoads
    | WorkerSpawns(outcome: W.SpawnOutcome, helperStarts: bool)
    | WorkerStoresPid
    | WorkerRechecks
    | WorkerHandles(workerEvent: W.Event)
    | WorkerStores
    | WorkerSwaps
    | AnchorHandles(anchorEvent: A.Event)
    | AnchorSends(count: nat)
    | AnchorCrashes
    | HelperHandles(helperEvent: H.Event)
    | HelperSends(count: nat)
    | HelperDies
    | ChildWritesStdout(bytes: Text)
    | ChildWritesStderr(bytes: Text)
    | ChildCloses

  ghost predicate Init(cfg: Config, s: System) {
    && s.caller == Waiting
    && s.worker == W.START
    && s.shared.result == 0 && s.shared.length == 0 && s.shared.pid == 0
    && |s.shared.payload| == cfg.capacity
    && s.threw.None?
    && s.anchor == AnchorProcess(A.Start(false), false, false, false, 0)
    && s.helper == HelperProcess(H.START, false, 0)
    && s.child == Child([], [], 0, 0, false, false)
  }

  predicate WorkerEnabled(s: System, e: W.Event) {
    && s.worker.pc == W.Loop && s.worker.publication == W.Idle
    && match e
       case Data(chunk) =>
         && s.worker.anchor.Some? && !s.worker.anchorClosed && chunk != []
         && s.anchor.sent <= |s.anchor.state.line|
         && s.worker.output + chunk <= s.anchor.state.line[..s.anchor.sent]
       case AnchorError(_) => s.worker.anchor.Some?
       case Exit => s.worker.anchor.Some? && !s.anchor.alive && !s.worker.anchorExited
       case Close =>
         && (s.worker.anchorExited || s.worker.anchor == Some(None)) && !s.worker.anchorClosed
         && s.anchor.sent <= |s.anchor.state.line|
         && s.worker.output == s.anchor.state.line[..s.anchor.sent]
       case Deadline => s.worker.timerArmed
       case Fatal(_) => true
  }

  predicate AnchorEnabled(cfg: Config, s: System, e: A.Event) {
    && s.anchor.alive && A.Enabled(s.anchor.state, e)
    && s.helper.sent <= |HelperText(cfg, s.helper)|
    && match e
       case HelperData(chunk) => chunk != [] && s.anchor.state.output + chunk <= HelperText(cfg, s.helper)[..s.helper.sent]
       case HelperClose => !s.helper.alive && s.anchor.state.output == HelperText(cfg, s.helper)[..s.helper.sent]
       case Flushed => s.anchor.sent == |s.anchor.state.line|
       case _ => true
  }

  predicate HelperEnabled(s: System, e: H.Event) {
    && s.helper.alive && H.Listening(s.helper.state, e)
    && s.child.stdoutRead <= |s.child.stdout| && s.child.stderrRead <= |s.child.stderr|
    && match e
       case StdoutData(chunk) => chunk != [] && chunk <= s.child.stdout[s.child.stdoutRead..]
       case StderrData(chunk) => chunk != [] && chunk <= s.child.stderr[s.child.stderrRead..]
       case ChildClose(_, _) =>
         && s.child.closed && !s.child.closeSeen
         && s.child.stdoutRead == |s.child.stdout| && s.child.stderrRead == |s.child.stderr|
       case _ => true
  }

  predicate Enabled(cfg: Config, s: System, e: Event) {
    match e
    case CallerTimesOut => s.caller.Waiting?
    case CallerWakes => s.caller.Waiting? && s.shared.result != 0
    case WorkerLoads => s.worker.pc == W.Load
    case WorkerSpawns(_, _) => s.worker.pc == W.Spawn
    case WorkerStoresPid => s.worker.pc == W.StorePid
    case WorkerRechecks => s.worker.pc == W.Recheck
    case WorkerHandles(e) => WorkerEnabled(s, e)
    case WorkerStores => s.worker.publication.Storing? && |s.worker.publication.encoded| <= |s.shared.payload|
    case WorkerSwaps => s.worker.publication == W.Swapping
    case AnchorHandles(e) => AnchorEnabled(cfg, s, e)
    case AnchorSends(count) => s.anchor.alive && s.anchor.sent + count <= |s.anchor.state.line|
    case AnchorCrashes => s.anchor.alive
    case HelperHandles(e) => HelperEnabled(s, e)
    case HelperSends(count) => s.helper.alive && s.helper.sent + count <= |HelperText(cfg, s.helper)|
    case HelperDies => s.helper.alive
    case ChildWritesStdout(_) => s.helper.state.stage.Running? && !s.child.closed
    case ChildWritesStderr(_) => s.helper.state.stage.Running? && !s.child.closed
    case ChildCloses => s.helper.state.stage.Running? && !s.child.closed
  }

  function Read(cfg: Config, shared: W.Shared): Option<ProbeResult> {
    if 0 <= shared.length <= |shared.payload| then cfg.codec.decode(shared.payload[..shared.length]) else None
  }

  function CallerNext(cfg: Config, s: System): System {
    if s.shared.result == 0
    then s.(caller := Cancelled(s.shared.pid), shared := s.shared.(result := -1))
    else s.(caller := Consumed(Read(cfg, s.shared)))
  }

  function SpawnNext(cfg: Config, s: System, outcome: W.SpawnOutcome, helperStarts: bool): System
    requires W.ValidConfig(WorkerConfig(cfg))
  {
    var started := outcome.Started? && outcome.pid.Some?;
    s.(worker := W.AfterSpawn(WorkerConfig(cfg), s.worker, outcome),
       threw := if outcome.Threw? then Some(outcome.detail) else s.threw,
       anchor := s.anchor.(state := A.Start(started && helperStarts), alive := started),
       helper := s.helper.(alive := started && helperStarts))
  }

  function StorePidNext(s: System): System {
    match s.worker.anchor
    case Some(Some(pid)) => s.(worker := s.worker.(pc := W.Recheck), shared := s.shared.(pid := pid))
    case _ => s
  }

  function AnchorNext(cfg: Config, s: System, e: A.Event): System {
    var anchor := A.Next(cfg.codec, s.anchor.state, e);
    s.(anchor := s.anchor.(state := anchor, alive := !anchor.groupKilled,
                           graceFired := s.anchor.graceFired || e == A.Grace))
  }

  function ChildSeen(child: Child, e: H.Event): Child {
    match e
    case StdoutData(chunk) => child.(stdoutRead := child.stdoutRead + |chunk|)
    case StderrData(chunk) => child.(stderrRead := child.stderrRead + |chunk|)
    case ChildClose(_, _) => child.(closeSeen := true)
    case _ => child
  }

  function Next(cfg: Config, s: System, e: Event): System
    requires W.ValidConfig(WorkerConfig(cfg)) && Enabled(cfg, s, e)
  {
    match e
    case CallerTimesOut => CallerNext(cfg, s)
    case CallerWakes => CallerNext(cfg, s)
    case WorkerLoads => s.(worker := W.AfterLoad(s.worker, s.shared))
    case WorkerSpawns(outcome, helperStarts) => SpawnNext(cfg, s, outcome, helperStarts)
    case WorkerStoresPid => StorePidNext(s)
    case WorkerRechecks => s.(worker := W.AfterRecheck(s.worker, s.shared))
    case WorkerHandles(e) => s.(worker := W.Handle(WorkerConfig(cfg), s.worker, e))
    case WorkerStores =>
      s.(worker := s.worker.(publication := W.Swapping), shared := W.Store(s.shared, s.worker.publication.encoded))
    case WorkerSwaps => s.(worker := s.worker.(publication := W.Idle), shared := W.Swap(s.shared))
    case AnchorHandles(e) => AnchorNext(cfg, s, e)
    case AnchorSends(count) => s.(anchor := s.anchor.(sent := s.anchor.sent + count))
    case AnchorCrashes => s.(anchor := s.anchor.(alive := false, crashed := true))
    case HelperHandles(e) => s.(helper := s.helper.(state := H.Next(HelperEnv(cfg), s.helper.state, e)), child := ChildSeen(s.child, e))
    case HelperSends(count) => s.(helper := s.helper.(sent := s.helper.sent + count))
    case HelperDies => s.(helper := s.helper.(alive := false))
    case ChildWritesStdout(bytes) => s.(child := s.child.(stdout := s.child.stdout + bytes))
    case ChildWritesStderr(bytes) => s.(child := s.child.(stderr := s.child.stderr + bytes))
    case ChildCloses => s.(child := s.child.(closed := true))
  }

  ghost predicate Step(cfg: Config, s: System, s': System)
    requires W.ValidConfig(WorkerConfig(cfg))
  {
    exists e :: Enabled(cfg, s, e) && s' == Next(cfg, s, e)
  }

  ghost predicate Linked(cfg: Config, run: seq<System>, i: nat)
    requires i + 1 < |run| && W.ValidConfig(WorkerConfig(cfg))
  {
    Step(cfg, run[i], run[i + 1])
  }

  ghost predicate IsRun(cfg: Config, run: seq<System>)
    requires W.ValidConfig(WorkerConfig(cfg))
  {
    && run != []
    && Init(cfg, run[0])
    && forall i :: 0 <= i < |run| - 1 ==> Linked(cfg, run, i)
  }
}
