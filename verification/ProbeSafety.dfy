/**
 What every run of the composed probe keeps, and the end-to-end theorems that
 follow from it.
 */
module ProbeSafety {
  import opened Options
  import opened ProbeWire
  import opened ProbeSystem

  // ----- The helper and its child

  /** `r` is the completed result of a child that has closed, with both of its
      whole streams, each within the limit. */
  ghost predicate WholeOutput(cfg: Config, h: H.State, child: Child, r: ProbeResult) {
    && r.Completed?
    && h.stage == H.Running(r.path)
    && child.closed && child.closeSeen
    && |child.stdout| <= cfg.outputLimit && |child.stderr| <= cfg.outputLimit
    && r.stdout == cfg.codec.utf8(child.stdout)
    && r.stderr == cfg.codec.utf8(child.stderr)
  }

  ghost predicate HelperInv(cfg: Config, h: H.State, child: Child) {
    && |h.emitted| <= 1
    && h.finished == (h.emitted != [])
    && h.stdoutLength == child.stdoutRead <= |child.stdout|
    && h.stderrLength == child.stderrRead <= |child.stderr|
    && Concat(h.stdoutChunks) == child.stdout[..Min(child.stdoutRead, cfg.outputLimit)]
    && Concat(h.stderrChunks) == child.stderr[..Min(child.stderrRead, cfg.outputLimit)]
    && (h.stdoutLength > cfg.outputLimit || h.stderrLength > cfg.outputLimit ==> h.finished)
    && (child.closeSeen ==>
          child.closed && child.stdoutRead == |child.stdout| && child.stderrRead == |child.stderr|)
    && (h.emitted != [] && h.emitted[0].Completed? ==> WholeOutput(cfg, h, child, h.emitted[0]))
  }

  /** Capturing what comes next keeps the chunks a prefix of the stream. */
  lemma {:induction false} StreamKept(limit: nat, chunks: seq<Text>, stream: Text, read: nat, chunk: Text)
    requires read <= |stream| && chunk <= stream[read..]
    requires Concat(chunks) == stream[..Min(read, limit)]
    ensures Concat(H.Captured(limit, chunks, chunk, read)) == stream[..Min(read + |chunk|, limit)]
  {
    var seen, all := stream[..read], stream[..read + |chunk|];
    assert all == seen + chunk;
    assert seen[..Min(|seen|, limit)] == stream[..Min(|seen|, limit)];
    H.CaptureStep(limit, chunks, seen, chunk);
    assert all[..Min(|all|, limit)] == stream[..Min(|all|, limit)];
  }

  lemma StdoutKept(cfg: Config, h: H.State, child: Child, chunk: Text)
    requires HelperInv(cfg, h, child)
    requires chunk <= child.stdout[child.stdoutRead..]
    ensures HelperInv(cfg, H.OnStdout(HelperEnv(cfg), h, chunk),
                      child.(stdoutRead := child.stdoutRead + |chunk|))
    ensures h.emitted != [] ==> H.OnStdout(HelperEnv(cfg), h, chunk).emitted == h.emitted
  {
    StreamKept(cfg.outputLimit, h.stdoutChunks, child.stdout, child.stdoutRead, chunk);
  }

  lemma StderrKept(cfg: Config, h: H.State, child: Child, chunk: Text)
    requires HelperInv(cfg, h, child)
    requires chunk <= child.stderr[child.stderrRead..]
    ensures HelperInv(cfg, H.OnStderr(HelperEnv(cfg), h, chunk),
                      child.(stderrRead := child.stderrRead + |chunk|))
    ensures h.emitted != [] ==> H.OnStderr(HelperEnv(cfg), h, chunk).emitted == h.emitted
  {
    StreamKept(cfg.outputLimit, h.stderrChunks, child.stderr, child.stderrRead, chunk);
  }

  lemma CloseKept(cfg: Config, h: H.State, child: Child, status: Option<int>, signal: Option<string>)
    requires HelperInv(cfg, h, child) && h.stage.Running?
    requires child.closed && child.stdoutRead == |child.stdout| && child.stderrRead == |child.stderr|
    ensures HelperInv(cfg, H.OnClose(HelperEnv(cfg), h, status, signal), child.(closeSeen := true))
    ensures h.emitted != [] ==> H.OnClose(HelperEnv(cfg), h, status, signal).emitted == h.emitted
  {
    if !h.finished {
      assert child.stdout[..|child.stdout|] == child.stdout;
      assert child.stderr[..|child.stderr|] == child.stderr;
    }
  }

  lemma EmitKept(cfg: Config, h: H.State, child: Child, r: ProbeResult)
    requires HelperInv(cfg, h, child) && !r.Completed?
    ensures HelperInv(cfg, H.Emit(h, r), child)
    ensures h.emitted != [] ==> H.Emit(h, r).emitted == h.emitted
  {
  }

  lemma SpawnFailureKept(cfg: Config, h: H.State, child: Child, path: string, error: H.SpawnFailure)
    requires HelperInv(cfg, h, child)
    ensures HelperInv(cfg, H.SpawnFailed(h, path, error), child)
    ensures h.emitted != [] ==> H.SpawnFailed(h, path, error).emitted == h.emitted
  {
    EmitKept(cfg, h, child, SpawnError(error.message));
  }

  lemma LookupKept(cfg: Config, h: H.State, child: Child, lookup: H.Lookup, failure: Option<H.SpawnFailure>)
    requires HelperInv(cfg, h, child) && h.stage.Looking?
    ensures HelperInv(cfg, H.OnLookup(HelperEnv(cfg), h, lookup, failure), child)
    ensures h.emitted != [] ==> H.OnLookup(HelperEnv(cfg), h, lookup, failure).emitted == h.emitted
  {
    var over := h.(stage := H.Over);
    assert HelperInv(cfg, over, child);
    match lookup
    case Missing => EmitKept(cfg, over, child, NotFound);
    case NotExecutable(path) => EmitKept(cfg, over, child, SpawnError(cfg.codec.messages.notExecutable(path)));
    case Found(path) => if failure.Some? { SpawnFailureKept(cfg, over, child, path, failure.value); }
  }

  lemma StatKept(cfg: Config, h: H.State, child: Child, present: bool)
    requires HelperInv(cfg, h, child) && h.statPending.Some?
    ensures HelperInv(cfg, H.OnStat(HelperEnv(cfg), h, present), child)
    ensures h.emitted != [] ==> H.OnStat(HelperEnv(cfg), h, present).emitted == h.emitted
  {
    var settled := h.(statPending := None);
    assert HelperInv(cfg, settled, child);
    EmitKept(cfg, settled, child, NotFound);
    EmitKept(cfg, settled, child, SpawnError(cfg.codec.messages.missingLoader(h.statPending.value)));
  }

  lemma ChildErrorKept(cfg: Config, h: H.State, child: Child, error: H.SpawnFailure)
    requires HelperInv(cfg, h, child) && h.stage.Running?
    ensures var h' := H.SpawnFailed(h.(classifying := true), h.stage.path, error);
            HelperInv(cfg, h', child) && (h.emitted != [] ==> h'.emitted == h.emitted)
  {
    assert HelperInv(cfg, h.(classifying := true), child);
    SpawnFailureKept(cfg, h.(classifying := true), child, h.stage.path, error);
  }

  /** What a step of the helper keeps. */
  ghost predicate Kept(cfg: Config, s: System, e: H.Event) {
    var h := H.Next(HelperEnv(cfg), s.helper.state, e);
    HelperInv(cfg, h, ChildSeen(s.child, e)) && (s.helper.state.emitted != [] ==> h.emitted == s.helper.state.emitted)
  }

  lemma OutputEventKept(cfg: Config, s: System, e: H.Event)
    requires HelperInv(cfg, s.helper.state, s.child) && HelperEnabled(s, e)
    requires e.StdoutData? || e.StderrData? || e.ChildClose?
    ensures Kept(cfg, s, e)
  {
    match e
    case StdoutData(chunk) => StdoutKept(cfg, s.helper.state, s.child, chunk);
    case StderrData(chunk) => StderrKept(cfg, s.helper.state, s.child, chunk);
    case ChildClose(status, signal) => CloseKept(cfg, s.helper.state, s.child, status, signal);
  }

  lemma VerdictEventKept(cfg: Config, s: System, e: H.Event)
    requires HelperInv(cfg, s.helper.state, s.child) && HelperEnabled(s, e)
    requires !e.StdoutData? && !e.StderrData? && !e.ChildClose?
    ensures Kept(cfg, s, e)
  {
    match e
    case Deadline => EmitKept(cfg, s.helper.state, s.child, Timeout);
    case LookupDone(lookup, failure) => LookupKept(cfg, s.helper.state, s.child, lookup, failure);
    case ChildError(error) => ChildErrorKept(cfg, s.helper.state, s.child, error);
    case StatDone(present) => StatKept(cfg, s.helper.state, s.child, present);
    case Rejected(detail) => EmitKept(cfg, s.helper.state, s.child, SpawnError(detail));
  }

  /** The helper prints at most one result; a `completed` one is only printed
      after its child closed, with everything the child wrote. */
  lemma HelperStep(cfg: Config, s: System, e: H.Event)
    requires HelperInv(cfg, s.helper.state, s.child) && HelperEnabled(s, e)
    ensures Kept(cfg, s, e)
  {
    if e.StdoutData? || e.StderrData? || e.ChildClose? {
      OutputEventKept(cfg, s, e);
    } else {
      VerdictEventKept(cfg, s, e);
    }
  }

  // ----- What a published result may be

  /** A `completed` result is one the helper printed. */
  ghost predicate Justified(emitted: seq<ProbeResult>, r: ProbeResult) {
    r.Completed? ==> emitted == [r]
  }

  /** What the worker publishes: the error of a spawn that threw, else the completion
      it was first asked for, else the no-result failure. */
  function Answer(cfg: Config, threw: Option<string>, w: W.State): ProbeResult {
    if threw.Some? then SpawnError(threw.value)
    else if w.completionRequested && w.pendingResult.Some? then w.pendingResult.value
    else W.NoResult(WorkerConfig(cfg))
  }

  ghost predicate Holds(cfg: Config, shared: W.Shared, r: ProbeResult)
    requires Valid(cfg)
  {
    0 <= shared.length <= |shared.payload| && shared.payload[..shared.length] == W.Fit(WorkerConfig(cfg), r)
  }

  lemma {:induction false} PrintedOne(codec: Codec, emitted: seq<ProbeResult>)
    requires |emitted| == 1
    ensures Printed(codec, emitted) == Line(codec, emitted[0])
  {
    assert Printed(codec, emitted[..0]) == [];
  }

  lemma {:induction false} ForwardedLine(cfg: Config, emitted: seq<ProbeResult>, received: Text, output: Text)
    requires Valid(cfg) && |emitted| == 1
    requires received <= Printed(cfg.codec, emitted)
    requires output <= received && NewlineAt(output) >= 0
    ensures cfg.codec.decode(output[..NewlineAt(output)]) == Some(emitted[0])
  {
    PrintedOne(cfg.codec, emitted);
    PrefixOfLine(cfg.codec, emitted[0], output);
  }

  lemma FailureLine(cfg: Config, detail: string, output: Text)
    requires Valid(cfg) && output <= Line(cfg.codec, SpawnError(detail)) && NewlineAt(output) >= 0
    ensures cfg.codec.decode(output[..NewlineAt(output)]) == Some(SpawnError(detail))
  {
    PrefixOfLine(cfg.codec, SpawnError(detail), output);
  }

  lemma {:induction false} SomethingPrinted(codec: Codec, emitted: seq<ProbeResult>, received: Text)
    requires |emitted| <= 1 && received <= Printed(codec, emitted) && received != []
    ensures |emitted| == 1
  {
  }

  lemma {:induction false} ForwardedIsJustified(cfg: Config, emitted: seq<ProbeResult>, received: Text, n: nat, output: Text)
    requires Valid(cfg) && |emitted| <= 1
    requires received <= Printed(cfg.codec, emitted) && n < |received|
    requires output <= received[..n + 1] && NewlineAt(output) >= 0
    ensures cfg.codec.decode(output[..NewlineAt(output)]).Some?
    ensures Justified(emitted, cfg.codec.decode(output[..NewlineAt(output)]).value)
  {
    SomethingPrinted(cfg.codec, emitted, received);
    assert output <= received;
    ForwardedLine(cfg, emitted, received, output);
  }

  /** Whatever line the worker reads, a `completed` result in it is one the helper
      printed: it survived two pipes, two chunkings and the anchor's forwarding. */
  lemma {:induction false} LineIsJustified(cfg: Config, emitted: seq<ProbeResult>, received: Text, line: Text, output: Text)
    requires Valid(cfg) && |emitted| <= 1
    requires received <= Printed(cfg.codec, emitted)
    requires A.LineOf(cfg.codec, received, line)
    requires output <= line && NewlineAt(output) >= 0
    ensures cfg.codec.decode(output[..NewlineAt(output)]).Some?
    ensures Justified(emitted, cfg.codec.decode(output[..NewlineAt(output)]).value)
  {
    var n := NewlineAt(received);
    if n >= 0 && line == received[..n + 1] {
      ForwardedIsJustified(cfg, emitted, received, n, output);
    } else {
      var detail :| line == Line(cfg.codec, SpawnError(detail));
      FailureLine(cfg, detail, output);
    }
  }

  // ----- The worker

  predicate AnchorStarted(w: W.State) {
    w.anchor.Some? && w.anchor.value.Some?
  }

  ghost predicate WorkerInv(cfg: Config, emitted: seq<ProbeResult>, threw: Option<string>, w: W.State)
    requires Valid(cfg)
  {
    && (w.pendingResult.Some? ==> Justified(emitted, w.pendingResult.value))
    && (w.completionRequested ==> w.pendingResult.Some?)
    && (w.publication != W.Idle ==> w.finished)
    && (w.publication.Storing? ==> w.publication.encoded == W.Fit(WorkerConfig(cfg), Answer(cfg, threw, w)))
    && (threw.Some? ==> w.pc == W.Loop && w.anchor.None? && w.finished)
    && (w.pc != W.Loop ==> !w.finished && !w.anchorExited && !w.anchorClosed && w.output == [])
    && (w.pc == W.Load || w.pc == W.Spawn ==> w.anchor.None? && !w.completionRequested)
    && (w.pc == W.StorePid ==> AnchorStarted(w))
    && (w.pc == W.Recheck ==> w.anchor.Some?)
    && (w.finished && w.anchor.Some? ==> w.anchorClosed)
    && (w.anchorExited ==> w.anchor.Some?)
    && (w.anchorClosed ==> w.finished && w.anchor.Some? && (w.anchorExited || w.anchor.value.None?))
    && (w.pc == W.Loop && w.anchor.Some? && !w.finished ==> w.timerArmed || w.completionRequested)
  }

  /** How a handler moves the worker. */
  predicate Moves(w: W.State, w': W.State) {
    && w'.pc == w.pc && w'.anchor == w.anchor && w.signals <= w'.signals
    && (w'.publication == W.Idle ==> w'.finished == w.finished)
    && (w'.publication != W.Idle ==> w'.publication.Storing?)
  }

  lemma CompleteKeeps(cfg: Config, emitted: seq<ProbeResult>, threw: Option<string>, w: W.State,
                      r: ProbeResult, stop: bool)
    requires Valid(cfg) && Justified(emitted, r)
    requires WorkerInv(cfg, emitted, threw, w.(timerArmed := true)) && w.pc == W.Loop && w.publication == W.Idle
    ensures var w' := W.Complete(WorkerConfig(cfg), w, r, stop);
            && WorkerInv(cfg, emitted, threw, w') && Moves(w, w')
            && w'.output == w.output && w'.anchorExited == w.anchorExited
  {
  }

  ghost predicate LineReady(cfg: Config, h: HelperProcess, a: AnchorProcess) {
    && |h.state.emitted| <= 1
    && a.state.output <= HelperText(cfg, h)
    && (a.state.line != [] ==> A.LineOf(cfg.codec, a.state.output, a.state.line))
  }

  lemma DataKeeps(cfg: Config, s: System, chunk: Text)
    requires Valid(cfg) && WorkerInv(cfg, s.helper.state.emitted, s.threw, s.worker)
    requires WorkerEnabled(s, W.Data(chunk)) && LineReady(cfg, s.helper, s.anchor)
    ensures var w := W.OnData(WorkerConfig(cfg), s.worker, chunk);
            && WorkerInv(cfg, s.helper.state.emitted, s.threw, w) && Moves(s.worker, w)
            && w.output == s.worker.output + chunk && w.anchorExited == s.worker.anchorExited
  {
    var w1, emitted := s.worker.(output := s.worker.output + chunk), s.helper.state.emitted;
    assert w1.output <= s.anchor.state.line;
    if NewlineAt(w1.output) >= 0 {
      LineIsJustified(cfg, emitted, s.anchor.state.output, s.anchor.state.line, w1.output);
      CompleteKeeps(cfg, emitted, s.threw, w1, cfg.codec.decode(w1.output[..NewlineAt(w1.output)]).value, false);
    }
  }

  lemma CloseKeeps(cfg: Config, s: System)
    requires Valid(cfg) && WorkerInv(cfg, s.helper.state.emitted, s.threw, s.worker)
    requires WorkerEnabled(s, W.Close)
    ensures var w := W.OnClose(WorkerConfig(cfg), s.worker);
            && WorkerInv(cfg, s.helper.state.emitted, s.threw, w) && Moves(s.worker, w)
            && w.output == s.worker.output && w.anchorExited == s.worker.anchorExited
  {
  }

  /** Handlers keep the worker's invariant; none of them touches shared memory
      before its publication step. */
  lemma HandleKeeps(cfg: Config, s: System, e: W.Event)
    requires Valid(cfg) && WorkerInv(cfg, s.helper.state.emitted, s.threw, s.worker)
    requires WorkerEnabled(s, e) && LineReady(cfg, s.helper, s.anchor)
    ensures var w := W.Handle(WorkerConfig(cfg), s.worker, e);
            && WorkerInv(cfg, s.helper.state.emitted, s.threw, w) && Moves(s.worker, w)
            && w.output == (if e.Data? then s.worker.output + e.chunk else s.worker.output)
            && w.anchorExited == (s.worker.anchorExited || e == W.Exit)
  {
    var emitted := s.helper.state.emitted;
    match e
    case Data(chunk) => DataKeeps(cfg, s, chunk);
    case AnchorError(detail) => CompleteKeeps(cfg, emitted, s.threw, s.worker, SpawnError(detail), true);
    case Exit =>
    case Close => CloseKeeps(cfg, s);
    case Deadline => CompleteKeeps(cfg, emitted, s.threw, s.worker.(timerArmed := false), Timeout, true);
    case Fatal(detail) =>
      CompleteKeeps(cfg, emitted, s.threw, s.worker, W.FatalResult(WorkerConfig(cfg), detail), true);
  }

  // ----- The whole invariant, one predicate per group of components

  ghost predicate PipesInv(cfg: Config, h: HelperProcess, a: AnchorProcess, output: Text) {
    && h.sent <= |HelperText(cfg, h)|
    && a.state.output <= HelperText(cfg, h)[..h.sent]
    && a.sent <= |a.state.line|
    && output <= a.state.line[..a.sent]
    && A.Inv(cfg.codec, a.state)
  }

  /** Which processes can be running. */
  predicate ProcessInv(anchor: Option<Option<nat>>, anchorExited: bool, h: HelperProcess, a: AnchorProcess) {
    var started := anchor.Some? && anchor.value.Some?;
    && (!started ==> h.state == H.START && !h.alive && !a.alive && h.sent == 0 && a.sent == 0 && a.state.output == [])
    && (started ==> a.alive || a.crashed || a.state.groupKilled)
    && (a.state.groupKilled ==> !a.alive)
    && (a.state.groupKilled ==> a.graceFired || (a.state.helperClosed && a.state.resultFlushed))
    && (anchorExited ==> !a.alive)
  }

  ghost predicate SharedInv(cfg: Config, caller: Caller, threw: Option<string>, w: W.State, shared: W.Shared)
    requires Valid(cfg)
  {
    && |shared.payload| == cfg.capacity
    && (w.finished && !w.publication.Storing? ==> Holds(cfg, shared, Answer(cfg, threw, w)))
    && (w.finished && w.publication == W.Idle ==> shared.result != 0)
    && (shared.result == 1 ==> w.finished && w.publication == W.Idle)
    && (w.pc == W.Loop && w.anchor.None? && threw.None? ==> shared.result == -1)
    && (AnchorStarted(w) && (w.pc == W.Recheck || w.pc == W.Loop) ==> shared.pid == w.anchor.value.value)
    && match caller
       case Waiting => shared.result == 0 || shared.result == 1
       case Consumed(decoded) => shared.result == 1 && decoded == Read(cfg, shared)
       case Cancelled(pidSeen) => shared.result == -1 && NoWindow(w, pidSeen)
  }

  /** A cancelled caller leaves no anchor behind unnoticed: the worker has
      signalled it, or its pid was already published. */
  ghost predicate NoWindow(w: W.State, pidSeen: int) {
    w.pc == W.Loop && AnchorStarted(w) && w.anchor.value.value != 0 ==>
      w.signals >= 1 || pidSeen == w.anchor.value.value
  }

  ghost predicate Inv(cfg: Config, s: System)
    requires Valid(cfg)
  {
    && HelperInv(cfg, s.helper.state, s.child)
    && PipesInv(cfg, s.helper, s.anchor, s.worker.output)
    && ProcessInv(s.worker.anchor, s.worker.anchorExited, s.helper, s.anchor)
    && WorkerInv(cfg, s.helper.state.emitted, s.threw, s.worker)
    && SharedInv(cfg, s.caller, s.threw, s.worker, s.shared)
  }

  lemma InitInv(cfg: Config, s: System)
    requires Valid(cfg) && Init(cfg, s)
    ensures Inv(cfg, s)
  {
  }

  // ----- Steps

  /** The helper prints at most once, and never takes it back. */
  predicate Extends(before: seq<ProbeResult>, after: seq<ProbeResult>) {
    |before| <= 1 && |after| <= 1 && (before != [] ==> after == before)
  }

  lemma PipesGrow(cfg: Config, h: HelperProcess, h': HelperProcess, a: AnchorProcess, output: Text)
    requires PipesInv(cfg, h, a, output) && h'.sent == h.sent && Extends(h.state.emitted, h'.state.emitted)
    ensures PipesInv(cfg, h', a, output)
  {
    if h.state.emitted == [] { assert HelperText(cfg, h) == []; }
    assert HelperText(cfg, h) <= HelperText(cfg, h');
    assert HelperText(cfg, h')[..h.sent] == HelperText(cfg, h)[..h.sent];
  }

  lemma WorkerKeepsFaith(cfg: Config, before: seq<ProbeResult>, after: seq<ProbeResult>, threw: Option<string>,
                         w: W.State)
    requires Valid(cfg) && WorkerInv(cfg, before, threw, w) && Extends(before, after)
    ensures WorkerInv(cfg, after, threw, w)
  {
  }

  lemma HelperStepInv(cfg: Config, s: System, e: H.Event)
    requires Valid(cfg) && Inv(cfg, s) && Enabled(cfg, s, HelperHandles(e))
    ensures Inv(cfg, Next(cfg, s, HelperHandles(e)))
  {
    HelperStep(cfg, s, e);
    var h, child := H.Next(HelperEnv(cfg), s.helper.state, e), ChildSeen(s.child, e);
    HelperMoves(cfg, s, h, child);
  }

  /** Nothing else depends on how the helper got there. */
  lemma HelperMoves(cfg: Config, s: System, h: H.State, child: Child)
    requires Valid(cfg) && Inv(cfg, s) && s.helper.alive && HelperInv(cfg, h, child)
    requires s.helper.state.emitted != [] ==> h.emitted == s.helper.state.emitted
    ensures Inv(cfg, s.(helper := s.helper.(state := h), child := child))
  {
    var helper := s.helper.(state := h);
    PipesGrow(cfg, s.helper, helper, s.anchor, s.worker.output);
    WorkerKeepsFaith(cfg, s.helper.state.emitted, h.emitted, s.threw, s.worker);
  }

  lemma ChildGrows(cfg: Config, h: H.State, child: Child, child': Child)
    requires child.stdout <= child'.stdout && child.stderr <= child'.stderr
    requires HelperInv(cfg, h, child) && !child.closed
    requires child' == child.(stdout := child'.stdout, stderr := child'.stderr, closed := child'.closed)
    ensures HelperInv(cfg, h, child')
  {
    var n, m := Min(child.stdoutRead, cfg.outputLimit), Min(child.stderrRead, cfg.outputLimit);
    assert child'.stdout[..n] == child.stdout[..n];
    assert child'.stderr[..m] == child.stderr[..m];
  }

  lemma ChildStepInv(cfg: Config, s: System, e: Event)
    requires Valid(cfg) && Inv(cfg, s) && Enabled(cfg, s, e)
    requires e.ChildWritesStdout? || e.ChildWritesStderr? || e.ChildCloses?
    ensures Inv(cfg, Next(cfg, s, e))
  {
    ChildGrows(cfg, s.helper.state, s.child, Next(cfg, s, e).child);
  }

  lemma AnchorStepInv(cfg: Config, s: System, e: A.Event)
    requires Valid(cfg) && Inv(cfg, s) && Enabled(cfg, s, AnchorHandles(e))
    ensures Inv(cfg, Next(cfg, s, AnchorHandles(e)))
  {
    A.InvStep(cfg.codec, s.anchor.state, e);
    LineGrows(cfg.codec, s.anchor.state, e);
    KillsAreJustified(cfg.codec, s.anchor.state, e);
    var s' := Next(cfg, s, AnchorHandles(e));
    assert s'.anchor.state.line[..s.anchor.sent] == s.anchor.state.line[..s.anchor.sent];
  }

  lemma LineGrows(codec: Codec, a: A.State, e: A.Event)
    ensures a.line <= A.Next(codec, a, e).line
    ensures A.Next(codec, a, e).output == (if e.HelperData? then a.output + e.chunk else a.output)
  {
    match e
    case HelperData(_) =>
    case HelperError(_) =>
    case HelperClose =>
    case Flushed =>
    case Sigterm =>
    case Watchdog =>
    case Grace =>
  }

  lemma KillsAreJustified(codec: Codec, a: A.State, e: A.Event)
    ensures var a' := A.Next(codec, a, e);
            && (a'.groupKilled ==> a.groupKilled || e == A.Grace || (a'.helperClosed && a'.resultFlushed))
            && (a.helperClosed ==> a'.helperClosed)
            && (a.resultFlushed ==> a'.resultFlushed)
  {
    match e
    case HelperData(_) =>
    case HelperError(_) =>
    case HelperClose =>
    case Flushed =>
    case Sigterm =>
    case Watchdog =>
    case Grace =>
  }

  lemma SendStepInv(cfg: Config, s: System, e: Event)
    requires Valid(cfg) && Inv(cfg, s) && Enabled(cfg, s, e)
    requires e.AnchorSends? || e.HelperSends? || e.AnchorCrashes? || e.HelperDies?
    ensures Inv(cfg, Next(cfg, s, e))
  {
    var s' := Next(cfg, s, e);
    assert s.anchor.state.line[..s.anchor.sent] <= s'.anchor.state.line[..s'.anchor.sent];
    assert HelperText(cfg, s.helper)[..s.helper.sent] <= HelperText(cfg, s'.helper)[..s'.helper.sent];
  }

  lemma CallerStepInv(cfg: Config, s: System, e: Event)
    requires Valid(cfg) && Inv(cfg, s) && Enabled(cfg, s, e)
    requires e.CallerTimesOut? || e.CallerWakes?
    ensures Inv(cfg, Next(cfg, s, e))
  {
  }

  lemma LoadStepInv(cfg: Config, s: System)
    requires Valid(cfg) && Inv(cfg, s) && Enabled(cfg, s, WorkerLoads)
    ensures Inv(cfg, Next(cfg, s, WorkerLoads))
  {
  }

  lemma StorePidStepInv(cfg: Config, s: System)
    requires Valid(cfg) && Inv(cfg, s) && Enabled(cfg, s, WorkerStoresPid)
    ensures Inv(cfg, Next(cfg, s, WorkerStoresPid))
  {
  }

  lemma RecheckStepInv(cfg: Config, s: System)
    requires Valid(cfg) && Inv(cfg, s) && Enabled(cfg, s, WorkerRechecks)
    ensures Inv(cfg, Next(cfg, s, WorkerRechecks))
  {
  }

  lemma SpawnThrows(cfg: Config, s: System, detail: string, helperStarts: bool)
    requires Valid(cfg) && Inv(cfg, s) && Enabled(cfg, s, WorkerSpawns(W.Threw(detail), helperStarts))
    ensures Inv(cfg, Next(cfg, s, WorkerSpawns(W.Threw(detail), helperStarts)))
  {
  }

  lemma SpawnStarts(cfg: Config, s: System, pid: Option<nat>, helperStarts: bool)
    requires Valid(cfg) && Inv(cfg, s) && Enabled(cfg, s, WorkerSpawns(W.Started(pid), helperStarts))
    ensures Inv(cfg, Next(cfg, s, WorkerSpawns(W.Started(pid), helperStarts)))
  {
  }

  lemma SpawnStepInv(cfg: Config, s: System, outcome: W.SpawnOutcome, helperStarts: bool)
    requires Valid(cfg) && Inv(cfg, s) && Enabled(cfg, s, WorkerSpawns(outcome, helperStarts))
    ensures Inv(cfg, Next(cfg, s, WorkerSpawns(outcome, helperStarts)))
  {
    match outcome
    case Threw(detail) => SpawnThrows(cfg, s, detail, helperStarts);
    case Started(pid) => SpawnStarts(cfg, s, pid, helperStarts);
  }

  lemma HandleStepInv(cfg: Config, s: System, e: W.Event)
    requires Valid(cfg) && Inv(cfg, s) && Enabled(cfg, s, WorkerHandles(e))
    ensures Inv(cfg, Next(cfg, s, WorkerHandles(e)))
  {
    HandleKeeps(cfg, s, e);
  }

  lemma PublishStepInv(cfg: Config, s: System, e: Event)
    requires Valid(cfg) && Inv(cfg, s) && Enabled(cfg, s, e)
    requires e.WorkerStores? || e.WorkerSwaps?
    ensures Inv(cfg, Next(cfg, s, e))
  {
    if e.WorkerStores? {
      var encoded := s.worker.publication.encoded;
      assert W.Store(s.shared, encoded).payload[..|encoded|] == encoded;
    }
  }

  lemma WorkerSideInv(cfg: Config, s: System, e: Event)
    requires Valid(cfg) && Inv(cfg, s) && Enabled(cfg, s, e) && !ByProcess(e)
    ensures Inv(cfg, Next(cfg, s, e))
  {
    match e
    case CallerTimesOut => CallerStepInv(cfg, s, e);
    case CallerWakes => CallerStepInv(cfg, s, e);
    case WorkerLoads => LoadStepInv(cfg, s);
    case WorkerSpawns(outcome, helperStarts) => SpawnStepInv(cfg, s, outcome, helperStarts);
    case WorkerStoresPid => StorePidStepInv(cfg, s);
    case WorkerRechecks => RecheckStepInv(cfg, s);
    case WorkerHandles(e') => HandleStepInv(cfg, s, e');
    case WorkerStores => PublishStepInv(cfg, s, e);
    case WorkerSwaps => PublishStepInv(cfg, s, e);
  }

  /** The steps of anchor, helper and child. */
  predicate ByProcess(e: Event) {
    || e.AnchorHandles? || e.AnchorSends? || e.AnchorCrashes?
    || e.HelperHandles? || e.HelperSends? || e.HelperDies?
    || e.ChildWritesStdout? || e.ChildWritesStderr? || e.ChildCloses?
  }

  lemma ProcessSideInv(cfg: Config, s: System, e: Event)
    requires Valid(cfg) && Inv(cfg, s) && Enabled(cfg, s, e) && ByProcess(e)
    ensures Inv(cfg, Next(cfg, s, e))
  {
    match e
    case AnchorHandles(e') => AnchorStepInv(cfg, s, e');
    case AnchorSends(_) => SendStepInv(cfg, s, e);
    case AnchorCrashes => SendStepInv(cfg, s, e);
    case HelperHandles(e') => HelperStepInv(cfg, s, e');
    case HelperSends(_) => SendStepInv(cfg, s, e);
    case HelperDies => SendStepInv(cfg, s, e);
    case ChildWritesStdout(_) => ChildStepInv(cfg, s, e);
    case ChildWritesStderr(_) => ChildStepInv(cfg, s, e);
    case ChildCloses => ChildStepInv(cfg, s, e);
  }

  lemma StepInv(cfg: Config, s: System, e: Event)
    requires Valid(cfg) && Inv(cfg, s) && Enabled(cfg, s, e)
    ensures Inv(cfg, Next(cfg, s, e))
  {
    if ByProcess(e) { ProcessSideInv(cfg, s, e); } else { WorkerSideInv(cfg, s, e); }
  }

  lemma {:induction false} RunInv(cfg: Config, run: seq<System>, i: nat)
    requires Valid(cfg) && IsRun(cfg, run) && i < |run|
    ensures Inv(cfg, run[i])
  {
    if i == 0 {
      InitInv(cfg, run[0]);
    } else {
      RunInv(cfg, run, i - 1);
      assert Linked(cfg, run, i - 1);
      var e :| Enabled(cfg, run[i - 1], e) && run[i] == Next(cfg, run[i - 1], e);
      StepInv(cfg, run[i - 1], e);
    }
  }

  // ----- End-to-end theorems

  /** In every interleaving: if the worker wins `header[0]` and its payload decodes
      to `completed`, the helper printed exactly that result and nothing else,
      after its child closed, both captured streams are all the child ever wrote
      and within the limit; and the result did not escape before teardown: the
      anchor is gone, having killed its group unless it was itself killed, and
      having reaped the helper first unless its watchdog gave up. */
  lemma CompletedIsGenuine(cfg: Config, run: seq<System>, i: nat, r: ProbeResult)
    requires Valid(cfg) && IsRun(cfg, run) && i < |run|
    requires run[i].shared.result == 1 && Read(cfg, run[i].shared) == Some(r) && r.Completed?
    ensures var s := run[i];
            && s.helper.state.emitted == [r]
            && WholeOutput(cfg, s.helper.state, s.child, r)
            && s.worker.anchorClosed && !s.anchor.alive
            && (s.anchor.state.groupKilled || s.anchor.crashed)
            && (s.anchor.crashed || s.anchor.graceFired || (s.anchor.state.helperClosed && s.anchor.state.resultFlushed))
  {
    RunInv(cfg, run, i);
    var s := run[i];
    assert Holds(cfg, s.shared, Answer(cfg, s.threw, s.worker));
    assert r == Answer(cfg, s.threw, s.worker);
  }

  /** No result of any kind escapes before teardown. The payload fits its length word
      and is the worker's first completion, or the no-result failure, once the anchor
      closed and is gone, with its group killed unless it was itself killed; a worker
      without an anchor only ever wins with the error of a spawn that threw. */
  lemma PublishedAfterTeardown(cfg: Config, run: seq<System>, i: nat)
    requires Valid(cfg) && IsRun(cfg, run) && i < |run| && run[i].shared.result == 1
    ensures var s := run[i];
            && 0 <= s.shared.length <= |s.shared.payload| == cfg.capacity
            && s.shared.payload[..s.shared.length] == W.Fit(WorkerConfig(cfg), Answer(cfg, s.threw, s.worker))
            && Read(cfg, s.shared).Some?
            && (s.worker.anchorClosed <==> s.threw.None?)
            && (s.worker.anchorClosed ==> !s.anchor.alive)
            && (AnchorStarted(s.worker) ==> s.anchor.state.groupKilled || s.anchor.crashed)
            && (s.threw.Some? ==> Answer(cfg, s.threw, s.worker) == SpawnError(s.threw.value))
  {
    RunInv(cfg, run, i);
    assert Holds(cfg, run[i].shared, Answer(cfg, run[i].threw, run[i].worker));
  }

  /** What the caller returns is what shared memory still holds: a consumed result
      is stable, and a consumed `completed` is genuine. */
  lemma ConsumedIsGenuine(cfg: Config, run: seq<System>, i: nat, r: ProbeResult)
    requires Valid(cfg) && IsRun(cfg, run) && i < |run|
    requires run[i].caller == Consumed(Some(r)) && r.Completed?
    ensures run[i].helper.state.emitted == [r] && WholeOutput(cfg, run[i].helper.state, run[i].child, r)
  {
    RunInv(cfg, run, i);
    CompletedIsGenuine(cfg, run, i, r);
  }

  /** No cancellation window: once the caller has cancelled, the worker never
      overwrites its mark, and a worker past start-up either never spawned an
      anchor, or has signalled it, or had published its pid before the
      cancellation; and while that anchor is open its supervision stays armed. */
  lemma NoCancellationWindow(cfg: Config, run: seq<System>, i: nat, j: nat)
    requires Valid(cfg) && IsRun(cfg, run) && i <= j < |run|
    requires run[i].caller.Cancelled?
    ensures var s := run[j];
            && s.caller == run[i].caller && s.shared.result == -1
            && (s.worker.pc == W.Loop && AnchorStarted(s.worker) && s.worker.anchor.value.value != 0 ==>
                  s.worker.signals >= 1 || run[i].caller.pidSeen == s.worker.anchor.value.value)
            && (s.worker.pc == W.Loop && s.worker.anchor.Some? && !s.worker.anchorClosed ==>
                  s.worker.timerArmed || s.worker.completionRequested)
  {
    CancelPersists(cfg, run, i, j);
    RunInv(cfg, run, j);
  }

  lemma {:induction false} CancelPersists(cfg: Config, run: seq<System>, i: nat, j: nat)
    requires Valid(cfg) && IsRun(cfg, run) && i <= j < |run|
    requires run[i].caller.Cancelled?
    ensures run[j].caller == run[i].caller
    decreases j - i
  {
    if i < j {
      CancelPersists(cfg, run, i, j - 1);
      assert Linked(cfg, run, j - 1);
      StepKeepsCancelled(cfg, run[j - 1], run[j]);
    }
  }

  lemma CancelledForGood(cfg: Config, s: System, e: Event)
    requires Valid(cfg) && Enabled(cfg, s, e) && s.caller.Cancelled?
    ensures Next(cfg, s, e).caller == s.caller
  {
    match e
    case WorkerLoads =>
    case WorkerSpawns(_, _) =>
    case WorkerStoresPid =>
    case WorkerRechecks =>
    case WorkerHandles(_) =>
    case WorkerStores =>
    case WorkerSwaps =>
    case _ =>
  }

  lemma StepKeepsCancelled(cfg: Config, s: System, s': System)
    requires Valid(cfg) && Step(cfg, s, s') && s.caller.Cancelled?
    ensures s'.caller == s.caller
  {
    var e :| Enabled(cfg, s, e) && s' == Next(cfg, s, e);
    CancelledForGood(cfg, s, e);
  }

  lemma StepIsStable(cfg: Config, s: System, s': System)
    requires Valid(cfg) && Inv(cfg, s) && Step(cfg, s, s') && s.shared.result == 1
    ensures s'.shared == s.shared
  {
    var e :| Enabled(cfg, s, e) && s' == Next(cfg, s, e);
    StableStep(cfg, s, e);
  }

  /** The published bytes never change: from the moment the worker wins, every
      later state shows the caller the same payload. */
  lemma {:induction false} PublishedIsStable(cfg: Config, run: seq<System>, i: nat, j: nat)
    requires Valid(cfg) && IsRun(cfg, run) && i <= j < |run|
    requires run[i].shared.result == 1
    ensures run[j].shared == run[i].shared
    decreases j - i
  {
    if i < j {
      PublishedIsStable(cfg, run, i, j - 1);
      RunInv(cfg, run, j - 1);
      assert Linked(cfg, run, j - 1);
      StepIsStable(cfg, run[j - 1], run[j]);
    }
  }

  lemma StableStep(cfg: Config, s: System, e: Event)
    requires Valid(cfg) && Inv(cfg, s) && Enabled(cfg, s, e)
    requires s.shared.result == 1
    ensures Next(cfg, s, e).shared == s.shared
  {
    match e
    case CallerTimesOut =>
    case CallerWakes =>
    case WorkerLoads =>
    case WorkerSpawns(_, _) =>
    case WorkerStoresPid =>
    case WorkerRechecks =>
    case WorkerHandles(_) =>
    case WorkerStores =>
    case WorkerSwaps =>
    case _ =>
  }
}
