/**
 The probe finishes: once nothing can feed the worker any more, it publishes
 within a computed number of its own steps, whatever else happens. And a
 genuine `completed` result can in fact be published.
 */
module ProbeProgress {
  import opened Options
  import opened ProbeWire
  import opened ProbeSystem
  import opened ProbeSafety

  // ----- A bound to publication

  /** The worker's spawn threw, or its anchor is gone. */
  predicate Ending(s: System) {
    s.threw.Some? || (s.worker.anchor.Some? && !s.anchor.alive)
  }

  predicate Published(s: System) {
    s.worker.finished && s.worker.publication == W.Idle
  }

  /** The steps that bring the worker nearer to publication; each is taken by the
      worker itself or by its event loop on an event that is already due. */
  predicate Delivers(e: Event) {
    || e.WorkerStoresPid? || e.WorkerRechecks? || e.WorkerStores? || e.WorkerSwaps?
    || (e.WorkerHandles? && (e.workerEvent.Data? || e.workerEvent.Exit? || e.workerEvent.Close?))
  }

  function StartWork(pc: W.Pc): nat {
    match pc
    case StorePid => 2
    case Recheck => 1
    case _ => 0
  }

  function PublishWork(w: W.State): nat {
    if !w.finished then 3
    else match w.publication
      case Storing(_) => 2
      case Swapping => 1
      case Idle => 0
  }

  function Unread(a: AnchorProcess, output: Text): nat {
    if |output| <= a.sent then a.sent - |output| else 0
  }

  function Work(s: System): nat {
    StartWork(s.worker.pc) + Unread(s.anchor, s.worker.output)
    + (if s.worker.anchorExited then 0 else 1) + PublishWork(s.worker)
  }

  /** A step that keeps the end in sight, nearer by one if it delivers. */
  predicate Advances(s: System, t: System, e: Event) {
    Ending(t) && Work(t) + (if Delivers(e) then 1 else 0) <= Work(s)
  }

  lemma HandleWork(cfg: Config, s: System, e: W.Event)
    requires Valid(cfg) && Inv(cfg, s) && Ending(s) && Enabled(cfg, s, WorkerHandles(e))
    ensures Advances(s, Next(cfg, s, WorkerHandles(e)), WorkerHandles(e))
  {
    HandleKeeps(cfg, s, e);
  }

  lemma ProcessWork(cfg: Config, s: System, e: Event)
    requires Valid(cfg) && Inv(cfg, s) && Ending(s) && Enabled(cfg, s, e) && ByProcess(e)
    ensures Advances(s, Next(cfg, s, e), e)
  {
  }

  lemma OwnWork(cfg: Config, s: System, e: Event)
    requires Valid(cfg) && Inv(cfg, s) && Ending(s) && Enabled(cfg, s, e)
    requires !ByProcess(e) && !e.WorkerHandles?
    ensures Advances(s, Next(cfg, s, e), e)
  {
  }

  lemma EndingStep(cfg: Config, s: System, e: Event)
    requires Valid(cfg) && Inv(cfg, s) && Ending(s) && Enabled(cfg, s, e)
    ensures Advances(s, Next(cfg, s, e), e)
  {
    if ByProcess(e) {
      ProcessWork(cfg, s, e);
    } else if e.WorkerHandles? {
      HandleWork(cfg, s, e.workerEvent);
    } else {
      OwnWork(cfg, s, e);
    }
  }

  ghost predicate CanDeliver(cfg: Config, s: System) {
    exists e :: Delivers(e) && Enabled(cfg, s, e)
  }

  /** Until it has published, an ending worker always has a step that counts. */
  lemma DeliveryIsDue(cfg: Config, s: System)
    requires Valid(cfg) && Inv(cfg, s) && Ending(s)
    ensures Published(s) || CanDeliver(cfg, s)
  {
    var w := s.worker;
    match w.pc
    case StorePid => assert Delivers(WorkerStoresPid) && Enabled(cfg, s, WorkerStoresPid);
    case Recheck => assert Delivers(WorkerRechecks) && Enabled(cfg, s, WorkerRechecks);
    case Load =>
    case Spawn =>
    case Loop =>
      if w.publication.Storing? {
        assert Delivers(WorkerStores) && Enabled(cfg, s, WorkerStores);
      } else if w.publication.Swapping? {
        assert Delivers(WorkerSwaps) && Enabled(cfg, s, WorkerSwaps);
      } else if !w.finished {
        EventIsDue(cfg, s);
      }
  }

  lemma EventIsDue(cfg: Config, s: System)
    requires Valid(cfg) && Inv(cfg, s) && Ending(s)
    requires s.worker.pc == W.Loop && s.worker.publication == W.Idle && !s.worker.finished
    ensures CanDeliver(cfg, s)
  {
    var output, line := s.worker.output, s.anchor.state.line[..s.anchor.sent];
    var e := if output != line then W.Data(line[|output|..])
             else if s.worker.anchorExited || s.worker.anchor == Some(None) then W.Close else W.Exit;
    if e.Data? { assert output + e.chunk == line; }
    assert Delivers(WorkerHandles(e)) && Enabled(cfg, s, WorkerHandles(e));
  }

  predicate Legal(cfg: Config, s: System, events: seq<Event>)
    requires W.ValidConfig(WorkerConfig(cfg))
    decreases |events|
  {
    events == [] || (Enabled(cfg, s, events[0]) && Legal(cfg, Next(cfg, s, events[0]), events[1..]))
  }

  function After(cfg: Config, s: System, events: seq<Event>): System
    requires W.ValidConfig(WorkerConfig(cfg)) && Legal(cfg, s, events)
    decreases |events|
  {
    if events == [] then s else After(cfg, Next(cfg, s, events[0]), events[1..])
  }

  function Deliveries(events: seq<Event>): nat {
    if events == [] then 0 else (if Delivers(events[0]) then 1 else 0) + Deliveries(events[1..])
  }

  /** From an ending state, every continuation takes at most `Work` deliveries, has one
      left until the worker has published, and a caller still waiting can then wake. */
  lemma {:induction false} PublicationFollows(cfg: Config, s: System, events: seq<Event>)
    requires Valid(cfg) && Inv(cfg, s) && Ending(s) && Legal(cfg, s, events)
    ensures var t := After(cfg, s, events);
            && Deliveries(events) + Work(t) <= Work(s)
            && (Published(t) || CanDeliver(cfg, t))
            && (Published(t) ==> t.shared.result != 0 && (t.caller.Waiting? ==> Enabled(cfg, t, CallerWakes)))
    decreases |events|
  {
    if events == [] {
      DeliveryIsDue(cfg, s);
    } else {
      StepInv(cfg, s, events[0]);
      EndingStep(cfg, s, events[0]);
      PublicationFollows(cfg, Next(cfg, s, events[0]), events[1..]);
    }
  }

  // ----- A run that publishes a completed result

  function Last(run: seq<System>): System
    requires run != []
  {
    run[|run| - 1]
  }

  lemma Extend(cfg: Config, run: seq<System>, e: Event) returns (longer: seq<System>)
    requires Valid(cfg) && IsRun(cfg, run) && Enabled(cfg, Last(run), e)
    ensures IsRun(cfg, longer) && Last(longer) == Next(cfg, Last(run), e)
  {
    longer := run + [Next(cfg, Last(run), e)];
    forall i | 0 <= i < |longer| - 1 ensures Linked(cfg, longer, i) {
      if i < |run| - 1 { assert Linked(cfg, run, i); }
    }
  }

  function Fresh(payload: Text): System {
    System(Waiting, W.START, None, W.Shared(0, 0, 0, payload),
           AnchorProcess(A.Start(false), false, false, false, 0), HelperProcess(H.START, false, 0),
           Child([], [], 0, 0, false, false))
  }

  /** Worker, anchor and helper are up. */
  function Up(payload: Text): System {
    Fresh(payload).(
      worker := W.START.(pc := W.Loop, anchor := Some(Some(1)), timerArmed := true),
      shared := W.Shared(0, 0, 1, payload),
      anchor := AnchorProcess(A.Start(true), true, false, false, 0),
      helper := HelperProcess(H.START, true, 0))
  }

  lemma ReachUp(cfg: Config, payload: Text) returns (run: seq<System>)
    requires Valid(cfg) && |payload| == cfg.capacity
    ensures IsRun(cfg, run) && Last(run) == Up(payload)
  {
    run := [Fresh(payload)];
    run := Extend(cfg, run, WorkerLoads);
    run := Extend(cfg, run, WorkerSpawns(W.Started(Some(1)), true));
    run := Extend(cfg, run, WorkerStoresPid);
    run := Extend(cfg, run, WorkerRechecks);
  }

  /** The result of a child that writes nothing and exits with zero. */
  function Silent(cfg: Config, path: string): ProbeResult {
    Completed(path, Some(0), None, cfg.codec.utf8([]), cfg.codec.utf8([]))
  }

  /** The helper has printed the silent child's result. */
  predicate HasPrinted(cfg: Config, path: string, payload: Text, s: System) {
    && s == Up(payload).(helper := s.helper, child := s.child)
    && s.helper.alive && s.helper.sent == 0 && s.helper.state.emitted == [Silent(cfg, path)]
  }

  lemma ReachPrinted(cfg: Config, path: string, payload: Text) returns (run: seq<System>)
    requires Valid(cfg) && |payload| == cfg.capacity
    ensures IsRun(cfg, run) && HasPrinted(cfg, path, payload, Last(run))
  {
    run := ReachUp(cfg, payload);
    run := Extend(cfg, run, HelperHandles(H.LookupDone(H.Found(path), None)));
    run := Extend(cfg, run, ChildCloses);
    run := Extend(cfg, run, HelperHandles(H.ChildClose(Some(0), None)));
  }

  /** The helper's line has reached the pipe. */
  predicate HasSent(cfg: Config, path: string, payload: Text, s: System) {
    var line := Line(cfg.codec, Silent(cfg, path));
    && s == Up(payload).(helper := s.helper, child := s.child)
    && s.helper.alive && s.helper.sent == |line| && HelperText(cfg, s.helper) == line
  }

  lemma ReachSent(cfg: Config, path: string, payload: Text) returns (run: seq<System>)
    requires Valid(cfg) && |payload| == cfg.capacity
    ensures IsRun(cfg, run) && HasSent(cfg, path, payload, Last(run))
  {
    run := ReachPrinted(cfg, path, payload);
    PrintedOne(cfg.codec, Last(run).helper.state.emitted);
    run := Extend(cfg, run, HelperSends(|Line(cfg.codec, Silent(cfg, path))|));
  }

  /** The anchor after its helper's one line. */
  function Writing(line: Text): A.State {
    A.Start(true).(output := line, resultWritten := true, shuttingDown := true, line := line, writes := 1,
                   helperKills := 1)
  }

  lemma AnchorWrites(codec: Codec, r: ProbeResult)
    requires Faithful(codec)
    ensures A.Next(codec, A.Start(true), A.HelperData(Line(codec, r))) == Writing(Line(codec, r))
  {
    var line := Line(codec, r);
    LineIsOneLine(codec, r);
    assert line[..|line|] == line && [] + line == line;
  }

  /** The anchor has written the line and stopped the helper. */
  predicate HasWritten(cfg: Config, path: string, payload: Text, s: System) {
    var line := Line(cfg.codec, Silent(cfg, path));
    && s == Up(payload).(helper := s.helper, child := s.child, anchor := s.anchor)
    && s.helper.alive && s.helper.sent == |line| && HelperText(cfg, s.helper) == line
    && s.anchor == Up(payload).anchor.(state := Writing(line))
  }

  lemma ReachWritten(cfg: Config, path: string, payload: Text) returns (run: seq<System>)
    requires Valid(cfg) && |payload| == cfg.capacity
    ensures IsRun(cfg, run) && HasWritten(cfg, path, payload, Last(run))
  {
    var line := Line(cfg.codec, Silent(cfg, path));
    run := ReachSent(cfg, path, payload);
    AnchorWrites(cfg.codec, Silent(cfg, path));
    assert line[..|line|] == line && [] + line == line;
    run := Extend(cfg, run, AnchorHandles(A.HelperData(line)));
  }

  /** The anchor has forwarded the line and killed its group. */
  predicate HasForwarded(cfg: Config, path: string, payload: Text, s: System) {
    && s == Up(payload).(helper := s.helper, child := s.child, anchor := s.anchor)
    && !s.anchor.alive && s.anchor.state.line == Line(cfg.codec, Silent(cfg, path))
    && s.anchor.sent == |s.anchor.state.line|
  }

  lemma ReachForwarded(cfg: Config, path: string, payload: Text) returns (run: seq<System>)
    requires Valid(cfg) && |payload| == cfg.capacity
    ensures IsRun(cfg, run) && HasForwarded(cfg, path, payload, Last(run))
  {
    var line := Line(cfg.codec, Silent(cfg, path));
    run := ReachWritten(cfg, path, payload);
    assert line[..|line|] == line;
    run := Extend(cfg, run, AnchorSends(|line|));
    run := Extend(cfg, run, AnchorHandles(A.Flushed));
    run := Extend(cfg, run, HelperDies);
    run := Extend(cfg, run, AnchorHandles(A.HelperClose));
  }

  /** The worker has read the line and seen its anchor exit. */
  predicate HasRead(cfg: Config, path: string, payload: Text, s: System) {
    && s == Up(payload).(helper := s.helper, child := s.child, anchor := s.anchor, worker := s.worker)
    && s.worker == Up(payload).worker.(
         output := Line(cfg.codec, Silent(cfg, path)), anchorExited := true,
         completionRequested := true, pendingResult := Some(Silent(cfg, path)))
    && s.anchor.state.line == s.worker.output && s.anchor.sent == |s.worker.output|
  }

  lemma ReachRead(cfg: Config, path: string, payload: Text) returns (run: seq<System>)
    requires Valid(cfg) && |payload| == cfg.capacity
    ensures IsRun(cfg, run) && HasRead(cfg, path, payload, Last(run))
  {
    var r := Silent(cfg, path);
    var line := Line(cfg.codec, r);
    run := ReachForwarded(cfg, path, payload);
    LineIsOneLine(cfg.codec, r);
    assert line[..|line|] == line && line[..|cfg.codec.encode(r)|] == cfg.codec.encode(r);
    assert [] + line == line;
    run := Extend(cfg, run, WorkerHandles(W.Data(line)));
    run := Extend(cfg, run, WorkerHandles(W.Exit));
  }

  /** With room for it, the silent child's result does get published: the theorems
      about published `completed` results are about runs that exist. */
  lemma CompletedIsReachable(cfg: Config, path: string, payload: Text) returns (run: seq<System>)
    requires Valid(cfg) && |payload| == cfg.capacity && |cfg.codec.encode(Silent(cfg, path))| <= cfg.capacity
    ensures IsRun(cfg, run) && Last(run).shared.result == 1
    ensures Read(cfg, Last(run).shared) == Some(Silent(cfg, path))
  {
    var encoded := cfg.codec.encode(Silent(cfg, path));
    run := ReachRead(cfg, path, payload);
    var line := Last(run).worker.output;
    assert line[..|line|] == line;
    run := Extend(cfg, run, WorkerHandles(W.Close));
    run := Extend(cfg, run, WorkerStores);
    assert W.SetPayload(payload, encoded)[..|encoded|] == encoded;
    run := Extend(cfg, run, WorkerSwaps);
  }
}
