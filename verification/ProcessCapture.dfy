/**
 `wait_with_output` as a concurrent system: the waiting thread, one reader thread
 per output stream, two bounded pipes, and any number of processes holding
 write ends. A run is any interleaving of their steps.
 */
module ProcessCapture {
  type Byte = bv8

  datatype Which = Out | Err

  datatype Reader = Reading | AtEnd | Failed

  /** `written` is everything the pipe accepted; `holders` are the processes with an
      open write end; `objectHolds` says the process object keeps one too. */
  datatype Pipe = Pipe(
    written: seq<Byte>,
    buffered: seq<Byte>,
    captured: seq<Byte>,
    holders: set<nat>,
    objectHolds: bool,
    closed: bool,
    reader: Reader
  )

  datatype Outcome = Pending | Exited(code: int) | TimedOut | WaitFailed

  /** How far the waiting thread has come. */
  datatype Pc = Waiting | Waited | Dropped | ClosedOut | Joining | JoinedOut | Returned

  datatype Config = Config(capacity: nat, outCloser: bool, errCloser: bool)

  datatype State = State(out: Pipe, err: Pipe, alive: set<nat>, pc: Pc, outcome: Outcome)

  datatype Result = Success(outcome: Outcome, stdout: seq<Byte>, stderr: seq<Byte>) | Failure

  datatype Event =
    | Write(which: Which, pid: nat, data: seq<Byte>)
    | CloseEnd(which: Which, pid: nat)
    | Fork(parent: nat, child: nat)
    | Exit(pid: nat)
    | ReadError(which: Which)
    | Read(which: Which, count: nat)
    | Eof(which: Which)
    | WaitReturns(outcome: Outcome)
    | DropObject
    | CancelOut
    | CancelErr
    | JoinOut
    | JoinErr

  /** The foreground process. */
  const CHILD: nat := 0

  function Get(s: State, w: Which): Pipe {
    if w.Out? then s.out else s.err
  }

  function Set(s: State, w: Which, p: Pipe): State {
    if w.Out? then s.(out := p) else s.(err := p)
  }

  function Rank(pc: Pc): nat {
    match pc
    case Waiting => 0
    case Waited => 1
    case Dropped => 2
    case ClosedOut => 3
    case Joining => 4
    case JoinedOut => 5
    case Returned => 6
  }

  // ----- Steps

  predicate Cancelled(o: Outcome) {
    o.TimedOut? || o.WaitFailed?
  }

  /** No writer is left anywhere, or the closer was fired. */
  predicate EofVisible(p: Pipe) {
    p.closed || (p.buffered == [] && p.holders == {} && !p.objectHolds)
  }

  predicate Enabled(c: Config, s: State, e: Event) {
    match e
    case Write(w, pid, data) =>
      var p := Get(s, w);
      pid in p.holders && p.reader.Reading? && data != [] && |p.buffered| + |data| <= c.capacity
    case CloseEnd(w, pid) => pid in Get(s, w).holders
    case Fork(parent, child) => parent in s.alive && child !in s.alive && child != CHILD
    case Exit(pid) => pid in s.alive
    case ReadError(w) => Get(s, w).reader.Reading?
    case Read(w, count) =>
      var p := Get(s, w);
      p.reader.Reading? && !p.closed && 0 < count <= |p.buffered|
    case Eof(w) => Get(s, w).reader.Reading? && EofVisible(Get(s, w))
    case WaitReturns(o) => s.pc.Waiting? && !o.Pending? && (o.Exited? ==> CHILD !in s.alive)
    case DropObject => s.pc.Waited?
    case CancelOut => s.pc.Dropped?
    case CancelErr => s.pc.ClosedOut?
    case JoinOut => s.pc.Joining? && !s.out.reader.Reading?
    case JoinErr => s.pc.JoinedOut? && !s.err.reader.Reading?
  }

  function Release(p: Pipe, pid: nat): Pipe {
    p.(holders := p.holders - {pid})
  }

  function Inherit(p: Pipe, parent: nat, child: nat): Pipe {
    if parent in p.holders then p.(holders := p.holders + {child}) else p
  }

  function Kill(s: State, pid: nat): State {
    s.(alive := s.alive - {pid}, out := Release(s.out, pid), err := Release(s.err, pid))
  }

  function Cancel(p: Pipe, fire: bool): Pipe {
    p.(closed := p.closed || fire)
  }

  function Next(c: Config, s: State, e: Event): State
    requires Enabled(c, s, e)
  {
    match e
    case Write(w, pid, data) =>
      var p := Get(s, w);
      Set(s, w, p.(written := p.written + data, buffered := p.buffered + data))
    case CloseEnd(w, pid) => Set(s, w, Release(Get(s, w), pid))
    case Fork(parent, child) =>
      s.(alive := s.alive + {child}, out := Inherit(s.out, parent, child), err := Inherit(s.err, parent, child))
    case Exit(pid) => Kill(s, pid)
    case ReadError(w) => Set(s, w, Get(s, w).(reader := Failed))
    case Read(w, count) =>
      var p := Get(s, w);
      Set(s, w, p.(captured := p.captured + p.buffered[..count], buffered := p.buffered[count..]))
    case Eof(w) => Set(s, w, Get(s, w).(reader := AtEnd))
    case WaitReturns(o) =>
      (if o.TimedOut? then Kill(s, CHILD) else s).(pc := Waited, outcome := o)
    case DropObject =>
      s.(pc := Dropped, out := s.out.(objectHolds := false), err := s.err.(objectHolds := false))
    case CancelOut => s.(pc := ClosedOut, out := Cancel(s.out, Cancelled(s.outcome) && c.outCloser))
    case CancelErr => s.(pc := Joining, err := Cancel(s.err, Cancelled(s.outcome) && c.errCloser))
    case JoinOut => s.(pc := JoinedOut)
    case JoinErr => s.(pc := Returned)
  }

  /** A stream that is not piped has no pipe: its reader ends at once. Some backends
      keep their own write end in the process object. */
  function StartPipe(piped: bool, kept: bool): Pipe {
    if piped then Pipe([], [], [], {CHILD}, kept, false, Reading)
    else Pipe([], [], [], {}, false, false, AtEnd)
  }

  function Start(outPiped: bool, errPiped: bool, kept: bool): State {
    State(StartPipe(outPiped, kept), StartPipe(errPiped, kept), {CHILD}, Waiting, Pending)
  }

  ghost predicate Linked(c: Config, run: seq<State>, i: nat)
    requires i + 1 < |run|
  {
    Step(c, run[i], run[i + 1])
  }

  ghost predicate IsRun(c: Config, run: seq<State>) {
    && run != []
    && (exists o, e, kept :: run[0] == Start(o, e, kept))
    && forall i :: 0 <= i < |run| - 1 ==> Linked(c, run, i)
  }

  ghost predicate Step(c: Config, s: State, t: State) {
    exists e :: Enabled(c, s, e) && t == Next(c, s, e)
  }

  /** What the call returns, once it has. */
  function ResultOf(s: State): Result {
    if s.outcome.WaitFailed? || s.out.reader.Failed? || s.err.reader.Failed? then Failure
    else Success(s.outcome, s.out.captured, s.err.captured)
  }

  // ----- Invariant

  predicate PipeInv(c: Config, s: State, p: Pipe) {
    && p.written == p.captured + p.buffered
    && |p.buffered| <= c.capacity
    && p.holders <= s.alive
    && (p.reader.AtEnd? && !p.closed ==> p.buffered == [] && p.holders == {} && !p.objectHolds)
    && (p.closed ==> Cancelled(s.outcome))
    && (Rank(s.pc) >= Rank(Dropped) ==> !p.objectHolds)
  }

  predicate MainInv(c: Config, s: State) {
    && (s.pc.Waiting? <==> s.outcome.Pending?)
    && (!s.outcome.Pending? && !s.outcome.WaitFailed? ==> CHILD !in s.alive)
    && (Rank(s.pc) >= Rank(ClosedOut) && Cancelled(s.outcome) && c.outCloser ==> s.out.closed)
    && (Rank(s.pc) >= Rank(Joining) && Cancelled(s.outcome) && c.errCloser ==> s.err.closed)
    && (Rank(s.pc) >= Rank(JoinedOut) ==> !s.out.reader.Reading?)
    && (s.pc.Returned? ==> !s.err.reader.Reading?)
  }

  predicate Inv(c: Config, s: State) {
    MainInv(c, s) && PipeInv(c, s, s.out) && PipeInv(c, s, s.err)
  }

  lemma PipeTransfer(c: Config, s: State, e: Event)
    requires Inv(c, s) && Enabled(c, s, e) && (e.Read? || e.Write?)
    ensures PipeInv(c, Next(c, s, e), Get(Next(c, s, e), e.which))
  {
    var p := Get(s, e.which);
    match e
    case Read(w, count) =>
      assert p.captured + p.buffered == p.captured + p.buffered[..count] + p.buffered[count..];
    case Write(w, pid, data) =>
      assert p.captured + p.buffered + data == p.captured + (p.buffered + data);
  }

  lemma PipeStep(c: Config, s: State, e: Event, w: Which)
    requires Inv(c, s) && Enabled(c, s, e)
    ensures PipeInv(c, Next(c, s, e), Get(Next(c, s, e), w))
  {
    if (e.Read? || e.Write?) && e.which == w {
      PipeTransfer(c, s, e);
    } else {
      var p, q := Get(s, w), Get(Next(c, s, e), w);
      assert q.written == p.written && q.captured == p.captured && q.buffered == p.buffered;
    }
  }

  lemma MainStep(c: Config, s: State, e: Event)
    requires Inv(c, s) && Enabled(c, s, e)
    ensures MainInv(c, Next(c, s, e))
  {
  }

  lemma {:induction false} RunKeepsInvariant(c: Config, run: seq<State>, i: nat)
    requires IsRun(c, run) && i < |run|
    ensures Inv(c, run[i])
  {
    if i > 0 {
      RunKeepsInvariant(c, run, i - 1);
      var s := run[i - 1];
      assert Linked(c, run, i - 1);
      var e :| Enabled(c, s, e) && run[i] == Next(c, s, e);
      MainStep(c, s, e);
      PipeStep(c, s, e, Out);
      PipeStep(c, s, e, Err);
    }
  }

  // ----- Conservation

  /** Nothing is lost or invented on the way, in any state of any run. */
  lemma OutputIsConserved(c: Config, run: seq<State>, i: nat, w: Which)
    requires IsRun(c, run) && i < |run|
    ensures var p := Get(run[i], w);
            p.written == p.captured + p.buffered && |p.buffered| <= c.capacity
  {
    RunKeepsInvariant(c, run, i);
  }

  /** A call that returns has joined both readers; one that reports an exit returns
      everything either stream ever accepted, and no process can add to it. */
  lemma ExitedOutputIsComplete(c: Config, run: seq<State>, i: nat)
    requires IsRun(c, run) && i < |run| && run[i].pc.Returned?
    ensures !run[i].out.reader.Reading? && !run[i].err.reader.Reading?
    ensures var s := run[i]; var r := ResultOf(s);
            r.Success? && r.outcome.Exited? ==>
              && r.stdout == s.out.written && r.stderr == s.err.written
              && s.out.holders == {} && s.err.holders == {}
  {
    RunKeepsInvariant(c, run, i);
  }

  lemma NoWriterStep(c: Config, s: State, e: Event, w: Which)
    requires Inv(c, s) && Enabled(c, s, e) && Get(s, w).holders == {}
    ensures var p, q := Get(s, w), Get(Next(c, s, e), w);
            q.holders == {} && q.written == p.written
  {
  }

  lemma StepAddsNoWriter(c: Config, s: State, t: State, w: Which)
    requires Inv(c, s) && Step(c, s, t) && Get(s, w).holders == {}
    ensures Get(t, w).holders == {} && Get(t, w).written == Get(s, w).written
  {
    var e :| Enabled(c, s, e) && t == Next(c, s, e);
    NoWriterStep(c, s, e, w);
  }

  /** Once a pipe has no writer it never has one again, so its content is final. */
  lemma {:induction false} NoWriterIsForever(c: Config, run: seq<State>, i: nat, j: nat, w: Which)
    requires IsRun(c, run) && i <= j < |run| && Get(run[i], w).holders == {}
    ensures Get(run[j], w).holders == {} && Get(run[j], w).written == Get(run[i], w).written
    decreases j - i
  {
    if i < j {
      NoWriterIsForever(c, run, i, j - 1, w);
      RunKeepsInvariant(c, run, j - 1);
      assert Linked(c, run, j - 1);
      StepAddsNoWriter(c, run[j - 1], run[j], w);
    }
  }

  // ----- Stuck states

  /** The steps of the call itself: its two readers and the waiting thread. */
  predicate ByProgram(e: Event) {
    e.Read? || e.Eof? || e.DropObject? || e.CancelOut? || e.CancelErr? || e.JoinOut? || e.JoinErr?
  }

  ghost predicate CanStep(c: Config, s: State) {
    exists e :: ByProgram(e) && Enabled(c, s, e)
  }

  /** A reader parked on an empty pipe that some process still holds. */
  predicate Parked(p: Pipe) {
    p.reader.Reading? && !p.closed && p.buffered == [] && p.holders != {}
  }

  lemma ReaderSteps(c: Config, s: State, w: Which)
    requires Inv(c, s) && Rank(s.pc) >= Rank(Dropped)
    ensures Get(s, w).reader.Reading? && !Parked(Get(s, w)) ==> CanStep(c, s)
  {
    var p := Get(s, w);
    if p.reader.Reading? && !Parked(p) {
      if EofVisible(p) {
        assert Enabled(c, s, Eof(w)) && ByProgram(Eof(w));
      } else {
        assert Enabled(c, s, Read(w, |p.buffered|)) && ByProgram(Read(w, |p.buffered|));
      }
    }
  }

  /** A writer whose bytes do not fit waits for nothing but its own stream's reader: that
      reader has a step, and after it the very same write goes through. */
  lemma FullPipeIsDrained(c: Config, run: seq<State>, i: nat, w: Which, pid: nat, data: seq<Byte>)
    requires IsRun(c, run) && i < |run|
    requires var p := Get(run[i], w);
             && pid in p.holders && p.reader.Reading? && !p.closed && 0 < |data| <= c.capacity
             && !Enabled(c, run[i], Write(w, pid, data))
    ensures var read := Read(w, |Get(run[i], w).buffered|);
            Enabled(c, run[i], read) && Enabled(c, Next(c, run[i], read), Write(w, pid, data))
  {
  }

  /** The stream the waiting thread joins next. */
  predicate Awaited(s: State, w: Which) {
    if w.Out? then s.pc.Joining? else s.pc.JoinedOut?
  }

  /** Exactly when the call has nothing left to do but has not returned. */
  predicate Deadlock(s: State) {
    || (s.pc.Joining? && Parked(s.out) && (s.err.reader.Reading? ==> Parked(s.err)))
    || (s.pc.JoinedOut? && Parked(s.err))
  }

  lemma StepsOrDeadlock(c: Config, s: State)
    requires Inv(c, s) && Rank(Waited) <= Rank(s.pc) < Rank(Returned)
    ensures CanStep(c, s) || Deadlock(s)
  {
    match s.pc
    case Waited => assert ByProgram(DropObject) && Enabled(c, s, DropObject);
    case Dropped => assert ByProgram(CancelOut) && Enabled(c, s, CancelOut);
    case ClosedOut => assert ByProgram(CancelErr) && Enabled(c, s, CancelErr);
    case Joining =>
      ReaderSteps(c, s, Out);
      ReaderSteps(c, s, Err);
      assert ByProgram(JoinOut) && (Enabled(c, s, JoinOut) ==> CanStep(c, s));
    case JoinedOut =>
      ReaderSteps(c, s, Err);
      assert ByProgram(JoinErr) && (Enabled(c, s, JoinErr) ==> CanStep(c, s));
  }

  lemma DeadlockIsStuck(c: Config, s: State, e: Event)
    requires Inv(c, s) && Deadlock(s) && ByProgram(e)
    ensures !Enabled(c, s, e)
  {
  }

  /** After the wait, the call is stuck exactly in a deadlock state: the reader it
      must join is parked, and where the child exited the holder that parks it is
      some other process. */
  lemma StuckExactlyOnAHeldPipe(c: Config, run: seq<State>, i: nat)
    requires IsRun(c, run) && i < |run|
    requires Rank(Waited) <= Rank(run[i].pc) < Rank(Returned)
    ensures !CanStep(c, run[i]) <==> Deadlock(run[i])
    ensures Deadlock(run[i]) && run[i].outcome.Exited? ==>
              exists w, p :: Awaited(run[i], w) && p in Get(run[i], w).holders && p != CHILD
  {
    RunKeepsInvariant(c, run, i);
    var s := run[i];
    if Deadlock(s) {
      forall e | ByProgram(e) ensures !Enabled(c, s, e) { DeadlockIsStuck(c, s, e); }
      var w := if s.pc.Joining? then Out else Err;
      var p :| p in Get(s, w).holders;
      assert Awaited(s, w);
    } else {
      StepsOrDeadlock(c, s);
    }
  }

  /** No process can feed this reader any more. */
  predicate Settled(p: Pipe) {
    !p.reader.Reading? || p.closed || p.holders == {}
  }

  /** After a timeout or a failed wait, with a closer for each stream still being
      read, the call is never stuck: what its readers wait for is there, whoever still
      holds a write end. */
  lemma CancellationUnblocks(c: Config, run: seq<State>, i: nat)
    requires IsRun(c, run) && i < |run|
    requires Cancelled(run[i].outcome) && Rank(run[i].pc) >= Rank(Joining)
    requires (run[i].out.reader.Reading? ==> c.outCloser) && (run[i].err.reader.Reading? ==> c.errCloser)
    ensures Settled(run[i].out) && (run[i].out.reader.Reading? ==> EofVisible(run[i].out))
    ensures Settled(run[i].err) && (run[i].err.reader.Reading? ==> EofVisible(run[i].err))
    ensures run[i].pc.Returned? || CanStep(c, run[i])
  {
    RunKeepsInvariant(c, run, i);
    if !run[i].pc.Returned? { StuckExactlyOnAHeldPipe(c, run, i); }
  }

  // ----- A call that is stuck

  function Last(run: seq<State>): State
    requires run != []
  {
    run[|run| - 1]
  }

  lemma Extend(c: Config, run: seq<State>, e: Event) returns (longer: seq<State>)
    requires IsRun(c, run) && Enabled(c, Last(run), e)
    ensures IsRun(c, longer) && Last(longer) == Next(c, Last(run), e)
  {
    longer := run + [Next(c, Last(run), e)];
    assert longer[0] == run[0];
    forall i | 0 <= i < |longer| - 1 ensures Linked(c, longer, i) {
      if i < |run| - 1 { assert Linked(c, run, i); }
    }
  }

  /** The child forks and exits; the wait reports the exit, and the call waits for the
      descendant, with or without closers. */
  lemma DescendantBlocksAnExitedCall(c: Config) returns (run: seq<State>)
    ensures IsRun(c, run) && Last(run).outcome == Exited(0) && Last(run).pc.Joining?
    ensures Deadlock(Last(run)) && !CanStep(c, Last(run))
  {
    run := [Start(true, true, true)];
    run := Extend(c, run, Fork(CHILD, 1));
    run := Extend(c, run, Exit(CHILD));
    run := Extend(c, run, WaitReturns(Exited(0)));
    run := Extend(c, run, DropObject);
    run := Extend(c, run, CancelOut);
    run := Extend(c, run, CancelErr);
    assert 1 in Last(run).out.holders && 1 in Last(run).err.holders;
    StuckExactlyOnAHeldPipe(c, run, |run| - 1);
  }

  // ----- Progress

  function ReaderWork(p: Pipe): nat {
    if !p.reader.Reading? then 0 else if p.closed then 1 else 1 + |p.buffered|
  }

  /** Steps the call still has to take. */
  function Work(s: State): nat {
    6 - Rank(s.pc) + ReaderWork(s.out) + ReaderWork(s.err)
  }

  predicate Finishing(c: Config, s: State) {
    Inv(c, s) && Rank(s.pc) >= Rank(Dropped) && Settled(s.out) && Settled(s.err)
  }

  lemma SettledStep(c: Config, s: State, e: Event, w: Which)
    requires Inv(c, s) && Rank(s.pc) >= Rank(Dropped) && Settled(Get(s, w)) && Enabled(c, s, e)
    ensures var p, q := Get(s, w), Get(Next(c, s, e), w);
            && Settled(q) && ReaderWork(q) <= ReaderWork(p)
            && ((e.Read? || e.Eof?) && e.which == w ==> ReaderWork(q) < ReaderWork(p))
  {
  }

  lemma FinishingStep(c: Config, s: State, e: Event)
    requires Finishing(c, s) && Enabled(c, s, e)
    ensures var t := Next(c, s, e);
            Finishing(c, t) && Work(t) + (if ByProgram(e) then 1 else 0) <= Work(s)
  {
    MainStep(c, s, e);
    PipeStep(c, s, e, Out);
    PipeStep(c, s, e, Err);
    SettledStep(c, s, e, Out);
    SettledStep(c, s, e, Err);
  }

  predicate Legal(c: Config, s: State, events: seq<Event>)
    decreases |events|
  {
    events == [] || (Enabled(c, s, events[0]) && Legal(c, Next(c, s, events[0]), events[1..]))
  }

  function After(c: Config, s: State, events: seq<Event>): State
    requires Legal(c, s, events)
    decreases |events|
  {
    if events == [] then s else After(c, Next(c, s, events[0]), events[1..])
  }

  function ProgramSteps(events: seq<Event>): nat {
    if events == [] then 0 else (if ByProgram(events[0]) then 1 else 0) + ProgramSteps(events[1..])
  }

  /** From where both streams are settled and the object is dropped, the call takes
      at most `Work` more steps whatever the processes do in between, and until it has
      returned it always has one to take. */
  lemma {:induction false} SettledCallReturns(c: Config, s: State, events: seq<Event>)
    requires Finishing(c, s) && Legal(c, s, events)
    ensures var t := After(c, s, events);
            && Finishing(c, t) && ProgramSteps(events) + Work(t) <= Work(s)
            && (t.pc.Returned? || CanStep(c, t))
    decreases |events|
  {
    if events == [] {
      if !s.pc.Returned? { StepsOrDeadlock(c, s); }
    } else {
      FinishingStep(c, s, events[0]);
      SettledCallReturns(c, Next(c, s, events[0]), events[1..]);
    }
  }
}
