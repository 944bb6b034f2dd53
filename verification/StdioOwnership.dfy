/**
 Who owns a container process's standard streams: `MxcProcess` hands them out one
 by one or as one native bundle, never both, and the backend's duplication of
 the bundle is all or nothing.
 */
module StdioOwnership {
  import opened Options

  /** A pipe end, by identity. */
  type Endpoint = nat

  datatype Which = Stdin | Stdout | Stderr

  datatype Access = Untouched | Individual | Native

  datatype Streams = Streams(stdin: Option<Endpoint>, stdout: Option<Endpoint>, stderr: Option<Endpoint>)

  datatype State = State(access: Access, held: Streams)

  /** Whether the backend offers native endpoints, and which duplications fail. */
  datatype Backend = Backend(offersNative: bool, fails: set<Which>)

  datatype Call = Take(which: Which) | TakeNative(backend: Backend)

  datatype Answer =
    | Stream(endpoint: Option<Endpoint>)
    | Bundle(streams: Option<Streams>)
    | Refused
    | DuplicationFailed

  const NONE := Streams(None, None, None)

  function Get(s: Streams, w: Which): Option<Endpoint> {
    match w case Stdin => s.stdin case Stdout => s.stdout case Stderr => s.stderr
  }

  function Without(s: Streams, w: Which): Streams {
    match w
    case Stdin => s.(stdin := None)
    case Stdout => s.(stdout := None)
    case Stderr => s.(stderr := None)
  }

  predicate Fails(s: Streams, backend: Backend) {
    exists w | w in {Stdin, Stdout, Stderr} :: Get(s, w).Some? && w in backend.fails
  }

  // ----- One call

  function TakeNext(s: State, w: Which): (State, Answer) {
    if s.access.Native? then (s, Stream(None))
    else if Get(s.held, w).None? then (s, Stream(None))
    else (State(Individual, Without(s.held, w)), Stream(Get(s.held, w)))
  }

  function BackendTake(held: Streams, backend: Backend): (Streams, Answer) {
    if !backend.offersNative then (held, Bundle(None))
    else if Fails(held, backend) then (held, DuplicationFailed)
    else if held == NONE then (held, Bundle(None))
    else (NONE, Bundle(Some(held)))
  }

  function NativeNext(s: State, backend: Backend): (State, Answer) {
    if s.access.Individual? then (s, Refused)
    else if s.access.Native? then (s, Bundle(None))
    else
      var (held, answer) := BackendTake(s.held, backend);
      (State(if answer.Bundle? && answer.streams.Some? then Native else s.access, held), answer)
  }

  function Next(s: State, call: Call): (State, Answer) {
    match call
    case Take(w) => TakeNext(s, w)
    case TakeNative(backend) => NativeNext(s, backend)
  }

  // ----- Whole call sequences

  function After(s: State, calls: seq<Call>): State {
    if calls == [] then s else Next(After(s, calls[..|calls| - 1]), calls[|calls| - 1]).0
  }

  function Answers(s: State, calls: seq<Call>): seq<Answer> {
    if calls == [] then []
    else
      var front := calls[..|calls| - 1];
      Answers(s, front) + [Next(After(s, front), calls[|calls| - 1]).1]
  }

  function Is(o: Option<Endpoint>, e: Endpoint): nat {
    if o == Some(e) then 1 else 0
  }

  /** How many of the streams are endpoint `e`. */
  function Count(s: Streams, e: Endpoint): nat {
    Is(s.stdin, e) + Is(s.stdout, e) + Is(s.stderr, e)
  }

  /** How often an answer gives `e` to the caller. */
  function Given(a: Answer, e: Endpoint): nat {
    match a
    case Stream(o) => Is(o, e)
    case Bundle(Some(s)) => Count(s, e)
    case _ => 0
  }

  function TotalGiven(answers: seq<Answer>, e: Endpoint): nat {
    if answers == [] then 0
    else TotalGiven(answers[..|answers| - 1], e) + Given(answers[|answers| - 1], e)
  }

  predicate IndividualGift(a: Answer) {
    a.Stream? && a.endpoint.Some?
  }

  predicate NativeGift(a: Answer) {
    a.Bundle? && a.streams.Some?
  }

  lemma NextConserves(s: State, call: Call, e: Endpoint)
    ensures Count(Next(s, call).0.held, e) + Given(Next(s, call).1, e) == Count(s.held, e)
  {
    match call
    case Take(w) =>
      match w { case Stdin => case Stdout => case Stderr => }
    case TakeNative(backend) =>
  }

  /** Nothing is handed out twice and nothing is lost: at every moment an endpoint is
      given out and still held together as often as the process began with it. */
  lemma {:induction false} EndpointsAreConserved(s: State, calls: seq<Call>, e: Endpoint)
    ensures |Answers(s, calls)| == |calls|
    ensures Count(After(s, calls).held, e) + TotalGiven(Answers(s, calls), e) == Count(s.held, e)
  {
    if calls != [] {
      var front, last := calls[..|calls| - 1], calls[|calls| - 1];
      EndpointsAreConserved(s, front, e);
      NextConserves(After(s, front), last, e);
      var answers := Answers(s, calls);
      assert answers[..|answers| - 1] == Answers(s, front);
    }
  }

  lemma {:induction false} TotalCoversTwo(answers: seq<Answer>, i: nat, j: nat, e: Endpoint)
    requires i < j < |answers|
    ensures TotalGiven(answers, e) >= Given(answers[i], e) + Given(answers[j], e)
  {
    var n := |answers| - 1;
    if j == n { TotalCoversOne(answers[..n], i, e); } else { TotalCoversTwo(answers[..n], i, j, e); }
  }

  lemma {:induction false} TotalCoversOne(answers: seq<Answer>, i: nat, e: Endpoint)
    requires i < |answers|
    ensures TotalGiven(answers, e) >= Given(answers[i], e)
  {
    var n := |answers| - 1;
    if i < n { TotalCoversOne(answers[..n], i, e); }
  }

  /** An endpoint the process began with once is in at most one answer. */
  lemma {:induction false} HandedOutAtMostOnce(s: State, calls: seq<Call>, i: nat, j: nat, e: Endpoint)
    requires Count(s.held, e) <= 1 && i < j < |Answers(s, calls)|
    ensures Given(Answers(s, calls)[i], e) == 0 || Given(Answers(s, calls)[j], e) == 0
  {
    EndpointsAreConserved(s, calls, e);
    TotalCoversTwo(Answers(s, calls), i, j, e);
  }

  /** The access field remembers exactly what kind of gift has been made. */
  lemma {:induction false} AccessRecordsGifts(s: State, calls: seq<Call>)
    requires s.access.Untouched?
    ensures var answers, access := Answers(s, calls), After(s, calls).access;
            && (access.Individual? <==> exists i :: 0 <= i < |answers| && IndividualGift(answers[i]))
            && (access.Native? <==> exists i :: 0 <= i < |answers| && NativeGift(answers[i]))
  {
    if calls != [] {
      var front := calls[..|calls| - 1];
      AccessRecordsGifts(s, front);
      var before, answers := Answers(s, front), Answers(s, calls);
      assert forall i :: 0 <= i < |before| ==> before[i] == answers[i];
      assert answers[|before|] == Next(After(s, front), calls[|calls| - 1]).1;
    }
  }

  /** Individual streams and the native bundle are never both handed out. */
  lemma {:induction false} NeverBothKinds(s: State, calls: seq<Call>, i: nat, j: nat)
    requires s.access.Untouched? && i < |Answers(s, calls)| && j < |Answers(s, calls)|
    ensures !(IndividualGift(Answers(s, calls)[i]) && NativeGift(Answers(s, calls)[j]))
  {
    AccessRecordsGifts(s, calls);
  }

  /** A failed duplication leaves every stream to be taken as before. */
  lemma FailureKeepsEverything(s: State, backend: Backend)
    ensures NativeNext(s, backend).1 in {Refused, DuplicationFailed} ==> NativeNext(s, backend).0 == s
    ensures NativeNext(s, backend).1.DuplicationFailed? <==>
              s.access.Untouched? && backend.offersNative && Fails(s.held, backend)
  {
  }

  // ----- The process object

  class MxcProcess {
    var access: Access
    var stdin: Option<Endpoint>
    var stdout: Option<Endpoint>
    var stderr: Option<Endpoint>

    function View(): State
      reads this
    {
      State(access, Streams(stdin, stdout, stderr))
    }

    constructor (streams: Streams)
      ensures View() == State(Untouched, streams)
    {
      access := Untouched;
      stdin, stdout, stderr := streams.stdin, streams.stdout, streams.stderr;
    }

    method TakeStdin() returns (stream: Option<Endpoint>)
      modifies this
      ensures (View(), Stream(stream)) == Next(old(View()), Take(Stdin))
    {
      if access == Native { return None; }
      stream := stdin;
      stdin := None;
      if stream.Some? { access := Individual; }
    }

    method TakeStdout() returns (stream: Option<Endpoint>)
      modifies this
      ensures (View(), Stream(stream)) == Next(old(View()), Take(Stdout))
    {
      if access == Native { return None; }
      stream := stdout;
      stdout := None;
      if stream.Some? { access := Individual; }
    }

    method TakeStderr() returns (stream: Option<Endpoint>)
      modifies this
      ensures (View(), Stream(stream)) == Next(old(View()), Take(Stderr))
    {
      if access == Native { return None; }
      stream := stderr;
      stderr := None;
      if stream.Some? { access := Individual; }
    }

    /** Every duplication comes before any source is taken. */
    method DuplicateAndTake(backend: Backend) returns (answer: Answer)
      modifies this
      ensures access == old(access)
      ensures (View().held, answer) == BackendTake(old(View().held), backend)
    {
      if !backend.offersNative { return Bundle(None); }
      if stdin.Some? && Stdin in backend.fails { return DuplicationFailed; }
      if stdout.Some? && Stdout in backend.fails { return DuplicationFailed; }
      if stderr.Some? && Stderr in backend.fails { return DuplicationFailed; }
      var streams := Streams(stdin, stdout, stderr);
      if streams == NONE { return Bundle(None); }
      stdin, stdout, stderr := None, None, None;
      answer := Bundle(Some(streams));
    }

    method TakeNativeStdio(backend: Backend) returns (answer: Answer)
      modifies this
      ensures (View(), answer) == Next(old(View()), TakeNative(backend))
    {
      match access {
        case Individual => return Refused;
        case Native => return Bundle(None);
        case Untouched =>
      }
      answer := DuplicateAndTake(backend);
      if answer.Bundle? && answer.streams.Some? { access := Native; }
    }
  }
}
