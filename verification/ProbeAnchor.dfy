/**
 The probe anchor: the detached leader of the probe's process group. It starts
 the helper, forwards the helper's first line, and kills the whole group once
 the helper is reaped and that line is flushed, or when its watchdog gives up.
 */
module ProbeAnchor {
  import opened ProbeWire

  datatype State = State(
    helperHasPid: bool,    // the helper was actually started
    output: Text,          // helper text received so far
    resultWritten: bool,
    resultFlushed: bool,
    shuttingDown: bool,
    helperClosed: bool,
    watchdogArmed: bool,
    graceArmed: bool,
    line: Text,            // text handed to process.stdout.write
    writes: nat,           // calls of process.stdout.write
    helperKills: nat,      // SIGKILLs sent to the helper
    groupKilled: bool)     // SIGKILL sent to the group; the anchor runs nothing after it

  function Start(helperHasPid: bool): State {
    State(helperHasPid, [], false, false, false, false, true, false, [], 0, 0, false)
  }

  datatype Event =
    | HelperData(chunk: Text)
    | HelperError(detail: string)
    | HelperClose
    | Flushed             // callback of process.stdout.write
    | Sigterm
    | Watchdog
    | Grace               // 500 ms after the watchdog

  // ----- Specification of the handlers

  function TerminateHelper(s: State): State {
    if s.shuttingDown then s
    else s.(shuttingDown := true,
            helperKills := if s.helperHasPid && !s.helperClosed then s.helperKills + 1 else s.helperKills)
  }

  function FinishIfReady(s: State): State {
    if s.helperClosed && s.resultFlushed then s.(watchdogArmed := false, groupKilled := true) else s
  }

  function Write(s: State, text: Text): State {
    s.(resultWritten := true, line := s.line + text, writes := s.writes + 1)
  }

  function EmitFailure(codec: Codec, s: State, detail: string): State {
    if s.resultWritten then s else Write(s, Line(codec, SpawnError(detail)))
  }

  function OnData(s: State, chunk: Text): State {
    var s' := s.(output := s.output + chunk);
    var newline := NewlineAt(s'.output);
    if !s.resultWritten && newline != -1 then TerminateHelper(Write(s', s'.output[..newline + 1])) else s'
  }

  /** What the operating system and Node's streams can deliver: nothing after the
      group kill, close once and after all data, one flush per write. */
  predicate Enabled(s: State, e: Event) {
    && !s.groupKilled
    && match e
       case HelperData(_) => !s.helperClosed
       case HelperError(_) => true
       case HelperClose => !s.helperClosed
       case Flushed => s.resultWritten && !s.resultFlushed
       case Sigterm => true
       case Watchdog => s.watchdogArmed
       case Grace => s.graceArmed
  }

  function Next(codec: Codec, s: State, e: Event): State {
    match e
    case HelperData(chunk) => OnData(s, chunk)
    case HelperError(detail) => EmitFailure(codec, s, detail)
    case HelperClose => FinishIfReady(EmitFailure(codec, s.(helperClosed := true), codec.messages.noResult))
    case Flushed => FinishIfReady(s.(resultFlushed := true))
    case Sigterm => TerminateHelper(s)
    case Watchdog => TerminateHelper(s).(watchdogArmed := false, graceArmed := true)
    case Grace => s.(graceArmed := false, groupKilled := true)
  }

  ghost predicate Legal(codec: Codec, helperHasPid: bool, events: seq<Event>) {
    if events == [] then true
    else
      var past := events[..|events| - 1];
      Legal(codec, helperHasPid, past) && Enabled(Run(codec, helperHasPid, past), events[|events| - 1])
  }

  function Run(codec: Codec, helperHasPid: bool, events: seq<Event>): State {
    if events == [] then Start(helperHasPid)
    else Next(codec, Run(codec, helperHasPid, events[..|events| - 1]), events[|events| - 1])
  }

  // ----- What every run keeps

  /** All text the helper sent, whatever the chunking. */
  function Received(events: seq<Event>): Text {
    if events == [] then [] else
    var rest := Received(events[..|events| - 1]);
    match events[|events| - 1]
    case HelperData(chunk) => rest + chunk
    case _ => rest
  }

  /** The one line the anchor may send: the helper's text through its first
      newline, or one `spawnError`. */
  ghost predicate LineOf(codec: Codec, received: Text, line: Text) {
    || (NewlineAt(received) >= 0 && line == received[..NewlineAt(received) + 1])
    || (exists detail :: line == Line(codec, SpawnError(detail)))
  }

  ghost predicate Inv(codec: Codec, s: State) {
    && s.writes == (if s.resultWritten then 1 else 0)
    && (!s.resultWritten ==> s.line == [] && !s.resultFlushed && NewlineAt(s.output) < 0)
    && (s.resultWritten ==> LineOf(codec, s.output, s.line))
    && s.helperKills <= 1
    && (s.helperKills == 1 ==> s.shuttingDown)
    && (s.helperClosed ==> s.resultWritten)
    && (s.helperClosed && s.resultFlushed ==> s.groupKilled)
    && (s.graceArmed ==> !s.watchdogArmed)
    && (s.groupKilled ==> !s.watchdogArmed)
  }

  lemma LineStable(codec: Codec, received: Text, chunk: Text, line: Text)
    requires LineOf(codec, received, line)
    ensures LineOf(codec, received + chunk, line)
  {
    if NewlineAt(received) >= 0 && line == received[..NewlineAt(received) + 1] {
      var all := received + chunk;
      assert received <= all;
      NewlineInPrefix(received, all);
      assert all[..NewlineAt(all) + 1] == line;
    }
  }

  lemma DataKeepsInv(codec: Codec, s: State, chunk: Text)
    requires Inv(codec, s)
    ensures Inv(codec, OnData(s, chunk))
  {
    if s.resultWritten {
      LineStable(codec, s.output, chunk, s.line);
    } else {
      var s' := OnData(s, chunk);
      assert s'.line == [] || s'.line == s'.output[..NewlineAt(s'.output) + 1];
    }
  }

  lemma FailureKeepsInv(codec: Codec, s: State, detail: string)
    requires Inv(codec, s.(helperClosed := false))
    ensures var s' := EmitFailure(codec, s, detail);
            && Inv(codec, s'.(helperClosed := false)) && s'.resultWritten
            && s'.helperClosed == s.helperClosed && (s'.resultFlushed ==> s.resultFlushed)
  {
    assert s.line == [] ==> s.line + Line(codec, SpawnError(detail)) == Line(codec, SpawnError(detail));
  }

  lemma InvStep(codec: Codec, s: State, e: Event)
    requires Inv(codec, s) && Enabled(s, e)
    ensures Inv(codec, Next(codec, s, e))
  {
    match e
    case HelperData(chunk) => DataKeepsInv(codec, s, chunk);
    case HelperError(detail) => FailureKeepsInv(codec, s, detail);
    case HelperClose => FailureKeepsInv(codec, s.(helperClosed := true), codec.messages.noResult);
    case Flushed =>
    case Sigterm =>
    case Watchdog =>
    case Grace =>
  }

  /** Over every legal order of data, errors, close, flush, SIGTERM and watchdog:
      at most one line is written and it is the helper's first line or one
      failure; the helper is killed at most once; "closed and flushed" means the
      group kill has been issued, and besides the watchdog's grace timer nothing
      else issues it. */
  lemma {:induction false} RunKeepsInvariant(codec: Codec, helperHasPid: bool, events: seq<Event>)
    requires Legal(codec, helperHasPid, events)
    ensures var s := Run(codec, helperHasPid, events);
            && Inv(codec, s)
            && s.output == Received(events)
            && (s.groupKilled <==> (s.helperClosed && s.resultFlushed) || Grace in events)
            && (s.graceArmed ==> Watchdog in events)
            && (Grace in events ==> Watchdog in events)
  {
    if events != [] {
      var past, e := events[..|events| - 1], events[|events| - 1];
      RunKeepsInvariant(codec, helperHasPid, past);
      assert events == past + [e];
      InvStep(codec, Run(codec, helperHasPid, past), e);
      KillStep(codec, Run(codec, helperHasPid, past), e);
    }
  }

  lemma KillStep(codec: Codec, s: State, e: Event)
    requires Inv(codec, s) && Enabled(s, e)
    ensures var s' := Next(codec, s, e);
            && (s'.groupKilled <==> (s'.helperClosed && s'.resultFlushed) || e == Grace)
            && (s'.graceArmed ==> s.graceArmed || e == Watchdog)
            && s'.output == (if e.HelperData? then s.output + e.chunk else s.output)
  {
    match e
    case HelperData(_) =>
    case HelperError(_) =>
    case HelperClose =>
    case Flushed =>
    case Sigterm =>
    case Watchdog =>
    case Grace =>
  }

  lemma {:induction false} RunSnoc(codec: Codec, helperHasPid: bool, past: seq<Event>, e: Event)
    ensures Run(codec, helperHasPid, past + [e]) == Next(codec, Run(codec, helperHasPid, past), e)
  {
    assert (past + [e])[..|past|] == past;
  }

  lemma NoKillStep(codec: Codec, s: State, e: Event)
    requires s.helperClosed || e == HelperClose
    ensures Next(codec, s, e).helperClosed && Next(codec, s, e).helperKills == s.helperKills
  {
    match e
    case HelperData(_) =>
    case HelperError(_) =>
    case HelperClose =>
    case Flushed =>
    case Sigterm =>
    case Watchdog =>
    case Grace =>
  }

  /** The helper is never signalled once it has closed: it has been reaped, so its
      process id may already belong to another process. */
  lemma {:induction false} NoKillAfterClose(codec: Codec, helperHasPid: bool, past: seq<Event>, future: seq<Event>)
    ensures var s := Run(codec, helperHasPid, past + [HelperClose] + future);
            s.helperClosed && s.helperKills == Run(codec, helperHasPid, past).helperKills
  {
    if future == [] {
      assert past + [HelperClose] + future == past + [HelperClose];
      RunSnoc(codec, helperHasPid, past, HelperClose);
      NoKillStep(codec, Run(codec, helperHasPid, past), HelperClose);
    } else {
      var shorter, e := future[..|future| - 1], future[|future| - 1];
      NoKillAfterClose(codec, helperHasPid, past, shorter);
      assert past + [HelperClose] + future == past + [HelperClose] + shorter + [e];
      RunSnoc(codec, helperHasPid, past + [HelperClose] + shorter, e);
      NoKillStep(codec, Run(codec, helperHasPid, past + [HelperClose] + shorter), e);
    }
  }

  // ----- The program

  class Anchor {
    const codec: Codec
    const helperHasPid: bool
    var output: Text
    var resultWritten: bool
    var resultFlushed: bool
    var shuttingDown: bool
    var helperClosed: bool
    var watchdogArmed: bool
    var graceArmed: bool
    var line: Text
    var writes: nat
    var helperKills: nat
    var groupKilled: bool

    function View(): State
      reads this
    {
      State(helperHasPid, output, resultWritten, resultFlushed, shuttingDown, helperClosed,
            watchdogArmed, graceArmed, line, writes, helperKills, groupKilled)
    }

    constructor (codec: Codec, helperHasPid: bool)
      ensures View() == Start(helperHasPid) && this.codec == codec
    {
      this.codec, this.helperHasPid := codec, helperHasPid;
      output, line, writes, helperKills := [], [], 0, 0;
      resultWritten, resultFlushed, shuttingDown, helperClosed := false, false, false, false;
      watchdogArmed, graceArmed, groupKilled := true, false, false;
    }

    method StopHelper()
      modifies this
      ensures View() == TerminateHelper(old(View()))
    {
      if shuttingDown { return; }
      shuttingDown := true;
      if helperHasPid && !helperClosed { helperKills := helperKills + 1; }
    }

    method TerminateOwnedGroup()
      modifies this
      ensures View() == old(View()).(groupKilled := true)
    {
      groupKilled := true;
    }

    method Finish()
      modifies this
      ensures View() == FinishIfReady(old(View()))
    {
      if !helperClosed || !resultFlushed { return; }
      watchdogArmed := false;
      TerminateOwnedGroup();
    }

    method WriteOut(text: Text)
      modifies this`line, this`writes
      ensures line == old(line) + text && writes == old(writes) + 1
    {
      line := line + text;
      writes := writes + 1;
    }

    method Fail(detail: string)
      modifies this
      ensures View() == EmitFailure(codec, old(View()), detail)
    {
      if resultWritten { return; }
      resultWritten := true;
      WriteOut(Line(codec, SpawnError(detail)));
    }

    method HandleData(chunk: Text)
      requires Enabled(View(), HelperData(chunk))
      modifies this
      ensures View() == Next(codec, old(View()), HelperData(chunk))
    {
      output := output + chunk;
      var newline := NewlineAt(output);
      if !resultWritten && newline != -1 {
        resultWritten := true;
        WriteOut(output[..newline + 1]);
        StopHelper();
      }
    }

    method HandleError(detail: string)
      requires Enabled(View(), HelperError(detail))
      modifies this
      ensures View() == Next(codec, old(View()), HelperError(detail))
    {
      Fail(detail);
    }

    method HandleClose()
      requires Enabled(View(), HelperClose)
      modifies this
      ensures View() == Next(codec, old(View()), HelperClose)
    {
      helperClosed := true;
      Fail(codec.messages.noResult);
      Finish();
    }

    method HandleFlushed()
      requires Enabled(View(), Flushed)
      modifies this
      ensures View() == Next(codec, old(View()), Flushed)
    {
      resultFlushed := true;
      Finish();
    }

    method HandleSigterm()
      requires Enabled(View(), Sigterm)
      modifies this
      ensures View() == Next(codec, old(View()), Sigterm)
    {
      StopHelper();
    }

    method HandleWatchdog()
      requires Enabled(View(), Watchdog)
      modifies this
      ensures View() == Next(codec, old(View()), Watchdog)
    {
      watchdogArmed := false;
      StopHelper();
      graceArmed := true;
    }

    method HandleGrace()
      requires Enabled(View(), Grace)
      modifies this
      ensures View() == Next(codec, old(View()), Grace)
    {
      graceArmed := false;
      TerminateOwnedGroup();
    }
  }
}
