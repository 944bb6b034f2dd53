/**
 The probe worker: a thread that starts the anchor, collects its one line, and
 publishes a result to the blocked caller through shared memory.

 The caller runs at the same time, so start-up and publication are split at
 every atomic access (`Load`, `Spawn`, `StorePid`, `Recheck`, `Store`, `Swap`).
 Between two of them the worker itself is single-threaded, and an event handler
 runs to completion.
 */
module ProbeWorker {
  import opened Options
  import opened ProbeWire

  datatype Pc = Load | Spawn | StorePid | Recheck | Loop

  datatype Publication = Idle | Storing(encoded: Text) | Swapping

  datatype State = State(
    pc: Pc,
    anchor: Option<Option<nat>>,   // None: not spawned; Some(pid), the pid possibly undefined
    output: Text,
    finished: bool,
    anchorExited: bool,
    anchorClosed: bool,
    completionRequested: bool,
    pendingResult: Option<ProbeResult>,
    timerArmed: bool,
    signals: nat,                  // SIGTERMs sent to the anchor
    publication: Publication)

  const START := State(Load, None, [], false, false, false, false, None, false, 0, Idle)

  /** `header[0..2]` and the payload bytes after them. */
  datatype Shared = Shared(result: int, length: int, pid: int, payload: Text)

  datatype Config = Config(codec: Codec, capacity: nat)

  function Oversize(cfg: Config): ProbeResult { SpawnError(cfg.codec.messages.oversize) }

  function NoResult(cfg: Config): ProbeResult { SpawnError(cfg.codec.messages.noResult) }

  function NoPid(cfg: Config): ProbeResult { SpawnError(cfg.codec.messages.noPid) }

  ghost predicate ValidConfig(cfg: Config) {
    |cfg.codec.encode(Oversize(cfg))| <= cfg.capacity
  }

  datatype SpawnOutcome = Threw(detail: string) | Started(pid: Option<nat>)

  datatype Event =
    | Data(chunk: Text)
    | AnchorError(detail: string)
    | Exit
    | Close
    | Deadline
    | Fatal(detail: string)

  // ----- Specification of start-up and of the handlers

  function StopAnchor(s: State): State {
    match s.anchor
    case Some(Some(pid)) => if pid == 0 || s.anchorExited then s else s.(signals := s.signals + 1)
    case _ => s
  }

  /** The bytes published for a result: its encoding, or the bounded fallback. */
  function Fit(cfg: Config, r: ProbeResult): (encoded: Text)
    requires ValidConfig(cfg)
    ensures |encoded| <= cfg.capacity
    ensures |cfg.codec.encode(r)| <= cfg.capacity ==> encoded == cfg.codec.encode(r)
  {
    if |cfg.codec.encode(r)| > cfg.capacity then cfg.codec.encode(Oversize(cfg)) else cfg.codec.encode(r)
  }

  predicate Bounded(cfg: Config, publication: Publication) {
    publication.Storing? ==> |publication.encoded| <= cfg.capacity
  }

  function Publish(cfg: Config, s: State, r: ProbeResult): (s': State)
    requires ValidConfig(cfg)
    ensures Bounded(cfg, s.publication) ==> Bounded(cfg, s'.publication)
  {
    if s.finished then s
    else s.(finished := true, timerArmed := false, publication := Storing(Fit(cfg, r)))
  }

  function Complete(cfg: Config, s: State, r: ProbeResult, stop: bool): (s': State)
    requires ValidConfig(cfg)
    ensures Bounded(cfg, s.publication) ==> Bounded(cfg, s'.publication)
  {
    if s.finished || s.completionRequested then s else
    var s1 := s.(completionRequested := true, pendingResult := Some(r));
    var s2 := if stop then StopAnchor(s1) else s1;
    if s2.anchor.None? || s2.anchorClosed then Publish(cfg, s2, r) else s2
  }

  function AfterLoad(s: State, shared: Shared): State {
    s.(pc := if shared.result == 0 then Spawn else Loop)
  }

  function AfterSpawn(cfg: Config, s: State, outcome: SpawnOutcome): State
    requires ValidConfig(cfg)
  {
    match outcome
    case Threw(detail) => Publish(cfg, s.(pc := Loop), SpawnError(detail))
    case Started(None) => Complete(cfg, s.(anchor := Some(None), pc := Recheck), NoPid(cfg), false)
    case Started(Some(pid)) => s.(anchor := Some(Some(pid)), pc := StorePid)
  }

  function AfterRecheck(s: State, shared: Shared): State {
    (if shared.result != 0 then StopAnchor(s) else s).(pc := Loop, timerArmed := true)
  }

  function OnData(cfg: Config, s: State, chunk: Text): (s': State)
    requires ValidConfig(cfg)
    ensures Bounded(cfg, s.publication) ==> Bounded(cfg, s'.publication)
  {
    var s1 := s.(output := s.output + chunk);
    var newline := NewlineAt(s1.output);
    if newline == -1 then s1 else
    var line := s1.output[..newline];
    match cfg.codec.decode(line)
    case Some(r) => Complete(cfg, s1, r, false)
    case None => Complete(cfg, s1, InvalidLine(cfg, line), true)
  }

  function InvalidLine(cfg: Config, line: Text): ProbeResult {
    SpawnError(cfg.codec.messages.invalidLine(cfg.codec.parseError(line)))
  }

  function FatalResult(cfg: Config, detail: string): ProbeResult {
    SpawnError(cfg.codec.messages.workerFailed(detail))
  }

  function OnClose(cfg: Config, s: State): (s': State)
    requires ValidConfig(cfg)
    ensures Bounded(cfg, s.publication) ==> Bounded(cfg, s'.publication)
  {
    Publish(cfg, s.(anchorClosed := true),
            if s.completionRequested && s.pendingResult.Some? then s.pendingResult.value else NoResult(cfg))
  }

  function Handle(cfg: Config, s: State, e: Event): (s': State)
    requires ValidConfig(cfg)
    ensures Bounded(cfg, s.publication) ==> Bounded(cfg, s'.publication)
  {
    match e
    case Data(chunk) => OnData(cfg, s, chunk)
    case AnchorError(detail) => Complete(cfg, s, SpawnError(detail), true)
    case Exit => s.(anchorExited := true)
    case Close => OnClose(cfg, s)
    case Deadline => Complete(cfg, s.(timerArmed := false), Timeout, true)
    case Fatal(detail) => Complete(cfg, s, FatalResult(cfg, detail), true)
  }

  /** `payload.set(encoded)`. */
  function SetPayload(payload: Text, encoded: Text): Text
    requires |encoded| <= |payload|
  {
    encoded + payload[|encoded|..]
  }

  function Store(shared: Shared, encoded: Text): Shared
    requires |encoded| <= |shared.payload|
  {
    shared.(payload := SetPayload(shared.payload, encoded), length := |encoded|)
  }

  /** `Atomics.compareExchange(header, 0, 0, 1)`. */
  function Swap(shared: Shared): Shared {
    if shared.result == 0 then shared.(result := 1) else shared
  }

  /** Runs a pending publication to its end with nobody interfering. */
  function Settle(s: State, shared: Shared): (State, Shared)
    requires s.publication.Storing? ==> |s.publication.encoded| <= |shared.payload|
  {
    match s.publication
    case Idle => (s, shared)
    case Storing(encoded) => (s.(publication := Idle), Swap(Store(shared, encoded)))
    case Swapping => (s.(publication := Idle), Swap(shared))
  }

  // ----- First completion wins, and publication waits for close

  predicate Quiet(cfg: Config, s: State, shared: Shared) {
    s.publication == Idle && |shared.payload| == cfg.capacity
  }

  function Turn(cfg: Config, s: State, shared: Shared, e: Event): (r: (State, Shared))
    requires ValidConfig(cfg) && Quiet(cfg, s, shared)
    ensures Quiet(cfg, r.0, r.1)
  {
    Settle(Handle(cfg, s, e), shared)
  }

  ghost function Run(cfg: Config, s: State, shared: Shared, events: seq<Event>): (r: (State, Shared))
    requires ValidConfig(cfg) && Quiet(cfg, s, shared)
    ensures Quiet(cfg, r.0, r.1)
  {
    if events == [] then (s, shared)
    else
      var (s', shared') := Run(cfg, s, shared, events[..|events| - 1]);
      Turn(cfg, s', shared', events[|events| - 1])
  }

  function Received(events: seq<Event>): Text {
    if events == [] then [] else
    var rest := Received(events[..|events| - 1]);
    match events[|events| - 1]
    case Data(chunk) => rest + chunk
    case _ => rest
  }

  /** The completion an event asks for, given all text received up to it. */
  function Request(cfg: Config, received: Text, e: Event): Option<ProbeResult> {
    match e
    case Data(_) =>
      if NewlineAt(received) == -1 then None else
      var line := received[..NewlineAt(received)];
      if cfg.codec.decode(line).Some? then cfg.codec.decode(line) else Some(InvalidLine(cfg, line))
    case AnchorError(detail) => Some(SpawnError(detail))
    case Exit => None
    case Close => None
    case Deadline => Some(Timeout)
    case Fatal(detail) => Some(FatalResult(cfg, detail))
  }

  /** The first completion asked for before the first close. */
  function FirstRequest(cfg: Config, events: seq<Event>): Option<ProbeResult> {
    if events == [] then None else
    var past := events[..|events| - 1];
    if FirstRequest(cfg, past).Some? then FirstRequest(cfg, past)
    else if Close in past then None
    else Request(cfg, Received(events), events[|events| - 1])
  }

  /** The first completion asked for, `asked` being one asked for during start-up. */
  function FirstAsked(cfg: Config, asked: Option<ProbeResult>, events: seq<Event>): Option<ProbeResult> {
    if asked.Some? then asked else FirstRequest(cfg, events)
  }

  function Verdict(cfg: Config, asked: Option<ProbeResult>, events: seq<Event>): ProbeResult {
    var first := FirstAsked(cfg, asked, events);
    if first.Some? then first.value else NoResult(cfg)
  }

  /** What start-up left pending. */
  function Asked(s: State): Option<ProbeResult> {
    if s.completionRequested then s.pendingResult else None
  }

  ghost predicate Tracks(cfg: Config, asked: Option<ProbeResult>, shared0: Shared, events: seq<Event>,
                         s: State, shared: Shared)
    requires ValidConfig(cfg) && |shared0.payload| == cfg.capacity
  {
    && s.anchor.Some?
    && s.output == Received(events)
    && s.finished == s.anchorClosed == (Close in events)
    && (!s.finished ==>
          && shared == shared0
          && s.completionRequested == FirstAsked(cfg, asked, events).Some?
          && (s.completionRequested ==> s.pendingResult == FirstAsked(cfg, asked, events)))
    && (s.finished ==> shared == Swap(Store(shared0, Fit(cfg, Verdict(cfg, asked, events)))))
  }

  lemma {:induction false} Unfold(cfg: Config, past: seq<Event>, e: Event)
    ensures var all := past + [e];
            && Received(all) == (if e.Data? then Received(past) + e.chunk else Received(past))
            && (Close in all <==> Close in past || e == Close)
            && FirstRequest(cfg, all) ==
                 (if FirstRequest(cfg, past).Some? then FirstRequest(cfg, past)
                  else if Close in past then None
                  else Request(cfg, Received(all), e))
  {
    assert (past + [e])[..|past|] == past;
  }

  /** A completion asked for while the anchor is still open is only remembered. */
  lemma CompleteTracks(cfg: Config, s: State, r: ProbeResult, stop: bool)
    requires ValidConfig(cfg) && s.anchor.Some? && s.anchorClosed == s.finished
    ensures var s' := Complete(cfg, s, r, stop);
            && (s.finished || s.completionRequested ==> s' == s)
            && (!s.finished && !s.completionRequested ==>
                  && s'.completionRequested && s'.pendingResult == Some(r)
                  && s'.output == s.output && s'.anchor == s.anchor && s'.publication == s.publication
                  && !s'.finished && !s'.anchorClosed)
  {
  }

  lemma TracksData(cfg: Config, asked: Option<ProbeResult>, shared0: Shared, past: seq<Event>, s: State, shared: Shared, chunk: Text)
    requires ValidConfig(cfg) && |shared0.payload| == cfg.capacity && Quiet(cfg, s, shared)
    requires Tracks(cfg, asked, shared0, past, s, shared)
    ensures var (s', shared') := Turn(cfg, s, shared, Data(chunk));
            Tracks(cfg, asked, shared0, past + [Data(chunk)], s', shared')
  {
    Unfold(cfg, past, Data(chunk));
    var s1 := s.(output := s.output + chunk);
    var newline := NewlineAt(s1.output);
    if newline != -1 {
      var line := s1.output[..newline];
      match cfg.codec.decode(line)
      case Some(r) => CompleteTracks(cfg, s1, r, false);
      case None => CompleteTracks(cfg, s1, InvalidLine(cfg, line), true);
    }
  }

  lemma TracksStep(cfg: Config, asked: Option<ProbeResult>, shared0: Shared, past: seq<Event>, s: State, shared: Shared, e: Event)
    requires ValidConfig(cfg) && |shared0.payload| == cfg.capacity && Quiet(cfg, s, shared)
    requires Tracks(cfg, asked, shared0, past, s, shared)
    ensures var (s', shared') := Turn(cfg, s, shared, e);
            Tracks(cfg, asked, shared0, past + [e], s', shared')
  {
    Unfold(cfg, past, e);
    match e
    case Data(chunk) => TracksData(cfg, asked, shared0, past, s, shared, chunk);
    case AnchorError(detail) => CompleteTracks(cfg, s, SpawnError(detail), true);
    case Exit =>
    case Close =>
    case Deadline => CompleteTracks(cfg, s.(timerArmed := false), Timeout, true);
    case Fatal(detail) => CompleteTracks(cfg, s, FatalResult(cfg, detail), true);
  }

  /** Over every order of data, error, fatal, timeout, exit and close events, a
      worker that spawned its anchor, with or without a pid, leaves shared memory
      alone until the anchor closes, then publishes once: the first completion asked
      for, during start-up or since, or the no-result fallback, in at most `capacity`
      bytes, and it never changes shared memory again. */
  lemma {:induction false} FirstCompletionWins(cfg: Config, s0: State, shared0: Shared, events: seq<Event>)
    requires ValidConfig(cfg) && Quiet(cfg, s0, shared0)
    requires s0.anchor.Some? && s0.output == []
    requires !s0.finished && !s0.anchorClosed && (s0.completionRequested ==> s0.pendingResult.Some?)
    ensures var (s, shared) := Run(cfg, s0, shared0, events);
            Tracks(cfg, Asked(s0), shared0, events, s, shared)
  {
    if events != [] {
      var past, e := events[..|events| - 1], events[|events| - 1];
      FirstCompletionWins(cfg, s0, shared0, past);
      var (s, shared) := Run(cfg, s0, shared0, past);
      TracksStep(cfg, Asked(s0), shared0, past, s, shared, e);
      assert past + [e] == events;
    }
  }

  /** An anchor spawned without a pid: whatever happens before its close, that is what
      is published, and nothing else ever is. */
  lemma {:induction false} PidlessAnchorWins(cfg: Config, shared0: Shared, rechecked: Shared, events: seq<Event>)
    requires ValidConfig(cfg) && |shared0.payload| == cfg.capacity
    ensures var s0 := AfterRecheck(AfterSpawn(cfg, START.(pc := Spawn), Started(None)), rechecked);
            && Quiet(cfg, s0, shared0)
            && Run(cfg, s0, shared0, events).1 ==
                 if Close in events then Swap(Store(shared0, Fit(cfg, NoPid(cfg)))) else shared0
  {
    var s0 := AfterRecheck(AfterSpawn(cfg, START.(pc := Spawn), Started(None)), rechecked);
    FirstCompletionWins(cfg, s0, shared0, events);
  }

  // ----- The program

  class Worker {
    const cfg: Config
    const header: array<int>
    const payload: array<Byte>
    var pc: Pc
    var anchor: Option<Option<nat>>
    var output: Text
    var finished: bool
    var anchorExited: bool
    var anchorClosed: bool
    var completionRequested: bool
    var pendingResult: Option<ProbeResult>
    var timerArmed: bool
    var signals: nat

    ghost predicate Valid() {
      && ValidConfig(cfg)
      && header.Length == 3
      && payload.Length == cfg.capacity
      && (header as object) != payload
    }

    function View(): State
      reads this
    {
      State(pc, anchor, output, finished, anchorExited, anchorClosed,
            completionRequested, pendingResult, timerArmed, signals, Idle)
    }

    function SharedView(): Shared
      requires header.Length == 3
      reads header, payload
    {
      Shared(header[0], header[1], header[2], payload[..])
    }

    constructor (cfg: Config, header: array<int>, payload: array<Byte>)
      requires ValidConfig(cfg) && header.Length == 3 && payload.Length == cfg.capacity
      requires (header as object) != payload
      ensures Valid() && View() == START
      ensures this.cfg == cfg && this.header == header && this.payload == payload
    {
      this.cfg, this.header, this.payload := cfg, header, payload;
      pc, anchor, output := Load, None, [];
      finished, anchorExited, anchorClosed, completionRequested := false, false, false, false;
      pendingResult, timerArmed, signals := None, false, 0;
    }

    method CompareExchange(expected: int, replacement: int) returns (seen: int)
      requires Valid()
      modifies header
      ensures seen == old(header[0])
      ensures header[0] == (if seen == expected then replacement else seen)
      ensures header[1] == old(header[1]) && header[2] == old(header[2])
    {
      seen := header[0];
      if seen == expected { header[0] := replacement; }
    }

    method SetBytes(encoded: Text)
      requires |encoded| <= payload.Length
      modifies payload
      ensures payload[..] == SetPayload(old(payload[..]), encoded)
    {
      var i := 0;
      while i < |encoded|
        invariant 0 <= i <= |encoded|
        invariant payload[..i] == encoded[..i]
        invariant payload[i..] == old(payload[..])[i..]
      {
        payload[i] := encoded[i];
        i := i + 1;
      }
      assert payload[..] == payload[..i] + payload[i..];
    }

    method SignalAnchor()
      modifies this
      ensures View() == StopAnchor(old(View()))
    {
      if anchor.None? || anchor.value.None? || anchor.value.value == 0 || anchorExited { return; }
      signals := signals + 1;
    }

    method PublishResult(result: ProbeResult)
      requires Valid()
      modifies this, header, payload
      ensures (View(), SharedView()) == Settle(Publish(cfg, old(View()), result), old(SharedView()))
    {
      if finished { return; }
      finished := true;
      timerArmed := false;
      var encoded := cfg.codec.encode(result);
      if |encoded| > payload.Length {
        encoded := cfg.codec.encode(Oversize(cfg));
      }
      SetBytes(encoded);
      header[1] := |encoded|;
      var _ := CompareExchange(0, 1);
    }

    method CompleteAfterCleanup(result: ProbeResult, stop: bool)
      requires Valid()
      modifies this, header, payload
      ensures (View(), SharedView()) == Settle(Complete(cfg, old(View()), result, stop), old(SharedView()))
    {
      if finished || completionRequested { return; }
      completionRequested := true;
      pendingResult := Some(result);
      if stop { SignalAnchor(); }
      if anchor.None? || anchorClosed { PublishResult(result); }
    }

    // Start-up, one method per atomic access: the caller may change `header[0]`
    // between any two of them.

    method CheckHeader()
      requires Valid() && pc == Load
      modifies this
      ensures View() == AfterLoad(old(View()), old(SharedView()))
    {
      pc := if header[0] == 0 then Spawn else Loop;
    }

    method SpawnAnchor(outcome: SpawnOutcome)
      requires Valid() && pc == Spawn
      modifies this, header, payload
      ensures (View(), SharedView()) == Settle(AfterSpawn(cfg, old(View()), outcome), old(SharedView()))
    {
      if outcome.Threw? {
        pc := Loop;
        PublishResult(SpawnError(outcome.detail));
        return;
      }
      anchor := Some(outcome.pid);
      if outcome.pid.None? {
        pc := Recheck;
        CompleteAfterCleanup(NoPid(cfg), false);
      } else {
        pc := StorePid;
      }
    }

    method StoreAnchorPid()
      requires Valid() && pc == StorePid && anchor.Some? && anchor.value.Some?
      modifies this, header
      ensures View() == old(View()).(pc := Recheck)
      ensures SharedView() == old(SharedView()).(pid := anchor.value.value)
    {
      header[2] := anchor.value.value;
      pc := Recheck;
    }

    method RecheckHeader()
      requires Valid() && pc == Recheck
      modifies this
      ensures View() == AfterRecheck(old(View()), old(SharedView()))
    {
      if header[0] != 0 { SignalAnchor(); }
      pc := Loop;
      timerArmed := true;
    }

    method HandleData(chunk: Text)
      requires Valid()
      modifies this, header, payload
      ensures (View(), SharedView()) == Turn(cfg, old(View()), old(SharedView()), Data(chunk))
    {
      output := output + chunk;
      var newline := NewlineAt(output);
      if newline != -1 {
        var line := output[..newline];
        var decoded := cfg.codec.decode(line);
        if decoded.Some? {
          CompleteAfterCleanup(decoded.value, false);
        } else {
          CompleteAfterCleanup(InvalidLine(cfg, line), true);
        }
      }
    }

    method HandleError(detail: string)
      requires Valid()
      modifies this, header, payload
      ensures (View(), SharedView()) == Turn(cfg, old(View()), old(SharedView()), AnchorError(detail))
    {
      CompleteAfterCleanup(SpawnError(detail), true);
    }

    method HandleExit()
      requires Valid()
      modifies this
      ensures (View(), SharedView()) == Turn(cfg, old(View()), old(SharedView()), Exit)
    {
      anchorExited := true;
    }

    method HandleClose()
      requires Valid()
      modifies this, header, payload
      ensures (View(), SharedView()) == Turn(cfg, old(View()), old(SharedView()), Close)
    {
      anchorClosed := true;
      if completionRequested && pendingResult.Some? {
        PublishResult(pendingResult.value);
      } else {
        PublishResult(NoResult(cfg));
      }
    }

    method HandleDeadline()
      requires Valid()
      modifies this, header, payload
      ensures (View(), SharedView()) == Turn(cfg, old(View()), old(SharedView()), Deadline)
    {
      timerArmed := false;
      CompleteAfterCleanup(Timeout, true);
    }

    method HandleFatal(detail: string)
      requires Valid()
      modifies this, header, payload
      ensures (View(), SharedView()) == Turn(cfg, old(View()), old(SharedView()), Fatal(detail))
    {
      CompleteAfterCleanup(FatalResult(cfg, detail), true);
    }
  }
}
