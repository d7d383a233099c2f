/**
 * The SunSpec discovery: every Modbus device found is scanned on its own endpoint, what the scans
 * find is passed on, and the discovery ends once, when the Modbus discovery and every scan have,
 * or on the first error.
 */
module DiscoveryRun {

  /** `open` of the sessions made for an endpoint have not been closed. */
  datatype Endpoint = Endpoint(emitted: bool, completed: bool, cancelled: bool, open: nat)

  datatype Signal = Next(endpoint: nat) | Completed | Errored

  /** `listened`: the discovery has subscribed to the Modbus discovery; `subscribed`: it still is. */
  datatype State = State(
    entered: bool,
    listened: bool,
    subscribed: bool,
    upstreamCompleted: bool,
    stopping: bool,
    failing: bool,
    terminal: bool,
    endpoints: seq<Endpoint>,
    trace: seq<Signal>)

  const Initial := State(false, false, false, false, false, false, false, [], [])

  /** Whether the scan of an endpoint completes while it is being cancelled, or only later. */
  type World = nat -> bool

  /** `Candidate(opens)`: a Modbus device, for which a session and a scanner can be made or not. */
  datatype Event =
    | Enter
    | Candidate(opens: bool)
    | UpstreamCompleted
    | UpstreamFailed
    | SessionWanted(endpoint: nat)
    | SessionClosed(endpoint: nat)
    | Found(endpoint: nat)
    | ScanCompleted(endpoint: nat)
    | ScanFailed(endpoint: nat)
    | Stop

  function Closed(endpoints: seq<Endpoint>): (closed: seq<Endpoint>)
    ensures |closed| == |endpoints|
  {
    seq(|endpoints|, i requires 0 <= i < |endpoints| => endpoints[i].(open := 0))
  }

  predicate AllCompleted(s: State) {
    forall i :: 0 <= i < |s.endpoints| ==> s.endpoints[i].completed
  }

  function Complete(s: State): State {
    if s.failing || s.terminal then s
    else s.(endpoints := Closed(s.endpoints), terminal := true, subscribed := false, trace := s.trace + [Completed])
  }

  function MaybeComplete(s: State): State {
    if s.failing || s.terminal || !s.upstreamCompleted || !AllCompleted(s) then s else Complete(s)
  }

  function CompleteScan(s: State, i: nat): (after: State)
    requires i < |s.endpoints|
    ensures |after.endpoints| == |s.endpoints|
  {
    if s.endpoints[i].completed then s
    else
      var done := s.(endpoints := s.endpoints[i := s.endpoints[i].(completed := true, open := 0)]);
      if s.failing then done else MaybeComplete(done)
  }

  /** Every scan from the `i`-th on is cancelled, until the discovery ends and lets go of the rest. */
  function CancelFrom(s: State, i: nat, world: World): (after: State)
    requires i <= |s.endpoints|
    ensures |after.endpoints| == |s.endpoints|
    decreases |s.endpoints| - i
  {
    if i == |s.endpoints| || s.terminal then s
    else
      var asked := s.(endpoints := s.endpoints[i := s.endpoints[i].(cancelled := true)]);
      CancelFrom(if world(i) && !s.endpoints[i].cancelled then CompleteScan(asked, i) else asked, i + 1, world)
  }

  function CancelAndClose(s: State, world: World): State {
    var cancelled := CancelFrom(s, 0, world);
    cancelled.(endpoints := Closed(cancelled.endpoints))
  }

  function Fail(s: State, world: World): State {
    if s.failing || s.terminal then s
    else
      var left := CancelAndClose(s.(failing := true, stopping := true), world);
      left.(terminal := true, subscribed := false, trace := left.trace + [Errored])
  }

  predicate Over(s: State) {
    s.stopping || s.failing || s.terminal
  }

  function Step(s: State, event: Event, world: World): State {
    match event
    case Enter =>
      if s.entered then s
      else if Over(s) then Complete(s.(entered := true))
      else s.(entered := true, listened := true, subscribed := true)
    case Candidate(opens) =>
      if !s.subscribed || Over(s) then s
      else if !opens then Fail(s, world)
      else s.(endpoints := s.endpoints + [Endpoint(false, false, false, 1)])
    case UpstreamCompleted =>
      if !s.subscribed then s else MaybeComplete(s.(upstreamCompleted := true))
    case UpstreamFailed =>
      if !s.subscribed then s else Fail(s, world)
    case SessionWanted(i) =>
      if i >= |s.endpoints| || s.endpoints[i].completed || Over(s) then s
      else s.(endpoints := s.endpoints[i := s.endpoints[i].(open := s.endpoints[i].open + 1)])
    case SessionClosed(i) =>
      if i >= |s.endpoints| || s.endpoints[i].open == 0 then s
      else s.(endpoints := s.endpoints[i := s.endpoints[i].(open := s.endpoints[i].open - 1)])
    case Found(i) =>
      if i >= |s.endpoints| || Over(s) || s.endpoints[i].emitted then s
      else s.(endpoints := s.endpoints[i := s.endpoints[i].(emitted := true)], trace := s.trace + [Next(i)])
    case ScanCompleted(i) =>
      if i >= |s.endpoints| || s.terminal then s else CompleteScan(s, i)
    case ScanFailed(i) =>
      if i >= |s.endpoints| || s.terminal then s
      else if Over(s) then CompleteScan(s, i)
      else Fail(s, world)
    case Stop =>
      if Over(s) then s else CancelAndClose(s.(stopping := true), world)
  }

  function Run(s: State, events: seq<Event>, world: World): State
    decreases |events|
  {
    if events == [] then s else Run(Step(s, events[0], world), events[1..], world)
  }

  // What every run keeps

  predicate IsEnd(signal: Signal) {
    signal.Completed? || signal.Errored?
  }

  /** Things come before the one ending, and each endpoint has at most one. */
  ghost predicate TraceFits(s: State) {
    && (forall i :: 0 <= i < |s.trace| && IsEnd(s.trace[i]) ==> i == |s.trace| - 1)
    && (s.terminal <==> s.trace != [] && IsEnd(s.trace[|s.trace| - 1]))
    && (forall i, j :: 0 <= i < j < |s.trace| && s.trace[i].Next? ==> s.trace[i] != s.trace[j])
    && (forall i :: 0 <= i < |s.trace| && s.trace[i].Next? ==>
          s.trace[i].endpoint < |s.endpoints| && s.endpoints[s.trace[i].endpoint].emitted)
  }

  ghost predicate SessionsFit(s: State) {
    && (forall i :: 0 <= i < |s.endpoints| && s.endpoints[i].completed ==> s.endpoints[i].open == 0)
    && (s.stopping || s.terminal ==> forall i :: 0 <= i < |s.endpoints| ==> s.endpoints[i].open == 0)
    && (!s.stopping && !s.failing ==> forall i :: 0 <= i < |s.endpoints| ==> !s.endpoints[i].cancelled)
  }

  ghost predicate EndFits(s: State) {
    && (s.subscribed <==> s.entered && !s.terminal)
    && (s.subscribed ==> s.listened)
    && (!s.listened ==> s.endpoints == [] && !s.upstreamCompleted)
    && (s.entered && !s.listened ==> s.terminal)
    && (!s.entered ==> !s.listened && s.endpoints == [] && !s.upstreamCompleted && !s.terminal && s.trace == [])
    && (s.failing <==> s.trace != [] && s.trace[|s.trace| - 1].Errored?)
    && (s.failing ==> s.terminal)
    && (s.trace != [] && s.trace[|s.trace| - 1].Completed? ==> AllCompleted(s) && (s.listened ==> s.upstreamCompleted))
    && (s.entered && !s.terminal && s.upstreamCompleted ==> !AllCompleted(s))
  }

  ghost predicate Invariant(s: State) {
    TraceFits(s) && SessionsFit(s) && EndFits(s)
  }

  /** The state while scans are being cancelled: the sessions of some may still be open. */
  ghost predicate Cancelling(s: State) {
    && TraceFits(s) && s.stopping && s.entered && s.listened
    && (forall i :: 0 <= i < |s.endpoints| && s.endpoints[i].completed ==> s.endpoints[i].open == 0)
    && (s.subscribed <==> !s.terminal)
    && (if s.failing then !s.terminal
        else
          && (s.terminal ==> AllCompleted(s) && s.upstreamCompleted && s.trace[|s.trace| - 1].Completed?)
          && (!s.terminal && s.upstreamCompleted ==> !AllCompleted(s)))
  }

  /** Completion of the scans is all that matters to their being completed. */
  lemma SameCompletion(s: State, t: State)
    requires |s.endpoints| == |t.endpoints|
    requires forall i :: 0 <= i < |s.endpoints| ==> s.endpoints[i].completed == t.endpoints[i].completed
    ensures AllCompleted(s) <==> AllCompleted(t)
  {
  }

  lemma CompleteScanCancels(s: State, i: nat)
    requires Cancelling(s) && !s.terminal && i < |s.endpoints|
    ensures Cancelling(CompleteScan(s, i))
    ensures CompleteScan(s, i).failing == s.failing
  {
  }

  lemma AskCancels(s: State, i: nat)
    requires Cancelling(s) && i < |s.endpoints|
    ensures Cancelling(s.(endpoints := s.endpoints[i := s.endpoints[i].(cancelled := true)]))
  {
    SameCompletion(s, s.(endpoints := s.endpoints[i := s.endpoints[i].(cancelled := true)]));
  }

  lemma {:induction false} CancelFromCancels(s: State, i: nat, world: World)
    requires Cancelling(s) && i <= |s.endpoints|
    ensures Cancelling(CancelFrom(s, i, world)) && CancelFrom(s, i, world).failing == s.failing
    decreases |s.endpoints| - i
  {
    hide Cancelling, CompleteScan;
    if i < |s.endpoints| && !s.terminal {
      var asked := s.(endpoints := s.endpoints[i := s.endpoints[i].(cancelled := true)]);
      AskCancels(s, i);
      CompleteScanCancels(asked, i);
      CancelFromCancels(if world(i) && !s.endpoints[i].cancelled then CompleteScan(asked, i) else asked, i + 1, world);
    }
  }

  lemma CompleteScanKeepsInvariant(s: State, i: nat)
    requires Invariant(s) && !s.terminal && i < |s.endpoints|
    ensures Invariant(CompleteScan(s, i))
  {
  }

  lemma StoppingCancels(s: State)
    requires Invariant(s) && s.entered && !Over(s)
    ensures Cancelling(s.(stopping := true))
    ensures forall i :: 0 <= i < |s.endpoints| ==> !s.endpoints[i].cancelled
  {
    SameCompletion(s, s.(stopping := true));
  }

  lemma StopFits(s: State)
    requires Cancelling(s) && !s.failing
    ensures Invariant(s.(endpoints := Closed(s.endpoints)))
  {
    hide AllCompleted;
    SameCompletion(s, s.(endpoints := Closed(s.endpoints)));
  }

  lemma StopKeepsInvariant(s: State, world: World)
    requires Invariant(s) && !Over(s)
    ensures Invariant(CancelAndClose(s.(stopping := true), world))
  {
    if s.entered {
      hide Invariant, Cancelling, CancelFrom;
      StoppingCancels(s);
      CancelFromCancels(s.(stopping := true), 0, world);
      StopFits(CancelFrom(s.(stopping := true), 0, world));
    }
  }

  lemma FailingCancels(s: State)
    requires Invariant(s) && s.entered && !s.failing && !s.terminal
    ensures Cancelling(s.(failing := true, stopping := true))
  {
    hide AllCompleted;
  }

  lemma ErrorFits(s: State)
    requires Cancelling(s) && s.failing
    ensures Invariant(s.(endpoints := Closed(s.endpoints), terminal := true, subscribed := false, trace := s.trace + [Errored]))
  {
    hide AllCompleted;
  }

  lemma FailKeepsInvariant(s: State, world: World)
    requires Invariant(s) && s.entered
    ensures Invariant(Fail(s, world))
  {
    if !s.failing && !s.terminal {
      hide CancelFrom, AllCompleted, Cancelling;
      FailingCancels(s);
      CancelFromCancels(s.(failing := true, stopping := true), 0, world);
      ErrorFits(CancelFrom(s.(failing := true, stopping := true), 0, world));
    }
  }

  lemma SessionKeepsInvariant(s: State, event: Event, world: World)
    requires Invariant(s) && (event.SessionWanted? || event.SessionClosed?)
    ensures Invariant(Step(s, event, world))
  {
    hide AllCompleted;
    SameCompletion(s, Step(s, event, world));
  }

  lemma FoundKeepsTrace(s: State, i: nat, world: World)
    requires TraceFits(s)
    ensures TraceFits(Step(s, Found(i), world))
  {
  }

  lemma FoundKeepsInvariant(s: State, i: nat, world: World)
    requires Invariant(s)
    ensures Invariant(Step(s, Found(i), world))
  {
    FoundKeepsTrace(s, i, world);
    hide AllCompleted, TraceFits;
    SameCompletion(s, Step(s, Found(i), world));
  }

  lemma UpstreamKeepsInvariant(s: State, world: World)
    requires Invariant(s)
    ensures Invariant(Step(s, UpstreamCompleted, world))
  {
  }

  lemma CandidateKeepsInvariant(s: State, world: World)
    requires Invariant(s)
    ensures Invariant(Step(s, Candidate(true), world))
  {
    var after := Step(s, Candidate(true), world);
    if |after.endpoints| > |s.endpoints| {
      assert !after.endpoints[|s.endpoints|].completed;
    }
  }

  lemma StepKeepsInvariant(s: State, event: Event, world: World)
    requires Invariant(s)
    ensures Invariant(Step(s, event, world))
  {
    hide CompleteScan, CancelAndClose, Fail;
    match event
    case UpstreamFailed =>
      if s.subscribed {
        FailKeepsInvariant(s, world);
      }
    case ScanCompleted(i) =>
      if i < |s.endpoints| && !s.terminal {
        CompleteScanKeepsInvariant(s, i);
      }
    case ScanFailed(i) =>
      if i < |s.endpoints| && !s.terminal {
        CompleteScanKeepsInvariant(s, i);
        FailKeepsInvariant(s, world);
      }
    case Stop =>
      if !Over(s) {
        StopKeepsInvariant(s, world);
      }
    case Candidate(opens) =>
      CandidateKeepsInvariant(s, world);
      if s.subscribed && !Over(s) && !opens {
        FailKeepsInvariant(s, world);
      }
    case Enter =>
      SameCompletion(s, Step(s, Enter, world));
    case UpstreamCompleted =>
      UpstreamKeepsInvariant(s, world);
    case Found(i) =>
      FoundKeepsInvariant(s, i, world);
    case _ =>
      SessionKeepsInvariant(s, event, world);
  }

  lemma {:induction false} RunKeepsInvariant(s: State, events: seq<Event>, world: World)
    requires Invariant(s)
    ensures Invariant(Run(s, events, world))
    decreases |events|
  {
    if events != [] {
      StepKeepsInvariant(s, events[0], world);
      RunKeepsInvariant(Step(s, events[0], world), events[1..], world);
    }
  }

  /** At most one thing for each endpoint, and one ending behind them, in every run. */
  lemma OneThingEachAndOneEnd(events: seq<Event>, world: World, i: nat, j: nat)
    requires i < j < |Run(Initial, events, world).trace|
    ensures var trace := Run(Initial, events, world).trace;
            trace[i].Next? && trace[i] != trace[j]
  {
    RunKeepsInvariant(Initial, events, world);
    var s := Run(Initial, events, world);
    assert TraceFits(s);
    assert !IsEnd(s.trace[i]);
  }

  /** A discovery that completes after listening has seen the end of the Modbus discovery and of every scan. */
  lemma CompletionMeansDone(events: seq<Event>, world: World)
    requires Completed in Run(Initial, events, world).trace
    ensures var s := Run(Initial, events, world);
            && s.terminal && AllCompleted(s)
            && (s.listened ==> s.upstreamCompleted)
            && (!s.listened ==> s.endpoints == [])
            && (forall i :: 0 <= i < |s.endpoints| ==> s.endpoints[i].open == 0)
  {
    RunKeepsInvariant(Initial, events, world);
    var s := Run(Initial, events, world);
    var k :| 0 <= k < |s.trace| && s.trace[k] == Completed;
    assert IsEnd(s.trace[k]) && k == |s.trace| - 1;
  }

  /** When the Modbus discovery and every scan have ended, so has the discovery. */
  lemma EverythingEndedEnds(events: seq<Event>, world: World)
    requires var s := Run(Initial, events, world); s.listened && s.upstreamCompleted && AllCompleted(s)
    ensures Run(Initial, events, world).terminal
  {
    RunKeepsInvariant(Initial, events, world);
  }

  /** A stopped or ended discovery keeps no session open. */
  lemma StoppedKeepsNoSession(events: seq<Event>, world: World, i: nat)
    requires i < |Run(Initial, events, world).endpoints|
    ensures var s := Run(Initial, events, world);
            s.stopping || s.terminal || s.endpoints[i].completed ==> s.endpoints[i].open == 0
  {
    RunKeepsInvariant(Initial, events, world);
    assert SessionsFit(Run(Initial, events, world));
  }

  /**
   * While the discovery and the scan of an endpoint are at work, its open sessions are one from the
   * start, one more for each that is made and one less for each that closes.
   */
  lemma SessionsAreCounted(s: State, event: Event, world: World, i: nat)
    requires Invariant(s) && !Over(s) && i < |s.endpoints| && !s.endpoints[i].completed
    requires var after := Step(s, event, world); !Over(after) && !after.endpoints[i].completed
    ensures var after := Step(s, event, world);
            && (event == SessionWanted(i) ==> after.endpoints[i].open == s.endpoints[i].open + 1)
            && (event == SessionClosed(i) && s.endpoints[i].open > 0 ==> after.endpoints[i].open == s.endpoints[i].open - 1)
            && (event != SessionWanted(i) && event != SessionClosed(i) ==> after.endpoints[i].open == s.endpoints[i].open)
            && (|after.endpoints| > |s.endpoints| ==> after.endpoints[|s.endpoints|].open == 1)
  {
    hide TraceFits, SessionsFit, EndFits, CancelFrom, AllCompleted;
    if event.Stop? {
      CancelFromSaysLittle(s.(stopping := true), 0, world);
    }
  }

  /** `after` says no more than `before`, but perhaps that it is over. */
  predicate EndsAtMost(before: State, after: State) {
    || after.trace == before.trace
    || (!before.terminal && (after.trace == before.trace + [Completed] || after.trace == before.trace + [Errored]))
  }

  lemma CompleteScanSaysLittle(s: State, i: nat)
    requires i < |s.endpoints| && s.stopping
    ensures var after := CompleteScan(s, i);
            after.stopping && (s.terminal ==> after.terminal)
            && (if after.terminal && !s.terminal then after.trace == s.trace + [Completed] else after.trace == s.trace)
  {
  }

  lemma {:induction false} CancelFromSaysLittle(s: State, i: nat, world: World)
    requires i <= |s.endpoints| && s.stopping
    ensures var after := CancelFrom(s, i, world);
            after.stopping && (s.terminal ==> after.terminal)
            && (if after.terminal && !s.terminal then after.trace == s.trace + [Completed] else after.trace == s.trace)
    decreases |s.endpoints| - i
  {
    hide CompleteScan;
    if i < |s.endpoints| && !s.terminal {
      var asked := s.(endpoints := s.endpoints[i := s.endpoints[i].(cancelled := true)]);
      CompleteScanSaysLittle(asked, i);
      CancelFromSaysLittle(if world(i) && !s.endpoints[i].cancelled then CompleteScan(asked, i) else asked, i + 1, world);
    }
  }

  lemma FailSaysLittle(s: State, world: World)
    requires Invariant(s) && s.entered && !s.terminal
    ensures Fail(s, world).trace == s.trace + [Errored] && Fail(s, world).stopping && Fail(s, world).terminal
  {
    var failing := s.(failing := true, stopping := true);
    CancelFromSaysLittle(failing, 0, world);
    CancelFromCancels(failing, 0, world);
  }

  lemma QuietStep(s: State, event: Event, world: World)
    requires Invariant(s) && (s.stopping || s.terminal)
    ensures var after := Step(s, event, world);
            (after.stopping || after.terminal) && (s.terminal ==> after.terminal && after.trace == s.trace)
            && EndsAtMost(s, after) && (after.trace != s.trace ==> after.terminal)
  {
    hide CompleteScan, CancelAndClose, Fail, TraceFits, SessionsFit;
    if (event.ScanCompleted? || event.ScanFailed?) && event.endpoint < |s.endpoints| && s.stopping {
      CompleteScanSaysLittle(s, event.endpoint);
    }
    if s.entered && !s.terminal {
      FailSaysLittle(s, world);
    }
  }

  /** Behind a stop or an ending comes no thing, and behind an ending nothing. */
  lemma {:induction false} QuietAfterStop(s: State, events: seq<Event>, world: World)
    requires Invariant(s) && (s.stopping || s.terminal)
    ensures EndsAtMost(s, Run(s, events, world))
    decreases |events|
  {
    if events != [] {
      StepKeepsInvariant(s, events[0], world);
      QuietStep(s, events[0], world);
      QuietAfterStop(Step(s, events[0], world), events[1..], world);
    }
  }

  // When a run errs

  /** An event that ends the discovery with an error. */
  predicate Errs(s: State, event: Event) {
    match event
    case UpstreamFailed => s.subscribed
    case ScanFailed(i) => i < |s.endpoints| && !Over(s)
    case Candidate(opens) => s.subscribed && !Over(s) && !opens
    case _ => false
  }

  predicate MeetsError(s: State, events: seq<Event>, world: World)
    decreases |events|
  {
    events != [] && (Errs(s, events[0]) || MeetsError(Step(s, events[0], world), events[1..], world))
  }

  lemma CompleteScanErrsNot(s: State, i: nat)
    requires i < |s.endpoints|
    ensures Errored in CompleteScan(s, i).trace <==> Errored in s.trace
  {
  }

  lemma {:induction false} CancelFromErrsNot(s: State, i: nat, world: World)
    requires i <= |s.endpoints|
    ensures Errored in CancelFrom(s, i, world).trace <==> Errored in s.trace
    decreases |s.endpoints| - i
  {
    hide CompleteScan;
    if i < |s.endpoints| && !s.terminal {
      var asked := s.(endpoints := s.endpoints[i := s.endpoints[i].(cancelled := true)]);
      CompleteScanErrsNot(asked, i);
      CancelFromErrsNot(if world(i) && !s.endpoints[i].cancelled then CompleteScan(asked, i) else asked, i + 1, world);
    }
  }

  lemma StepErrsExactly(s: State, event: Event, world: World)
    requires Invariant(s) && Errored !in s.trace
    ensures Errored in Step(s, event, world).trace <==> Errs(s, event)
  {
    hide CompleteScan, CancelFrom, TraceFits, SessionsFit, AllCompleted;
    CancelFromErrsNot(s.(stopping := true), 0, world);
    if (event.ScanCompleted? || event.ScanFailed?) && event.endpoint < |s.endpoints| {
      CompleteScanErrsNot(s, event.endpoint);
    }
    if s.entered && !s.terminal {
      FailSaysLittle(s, world);
      assert Fail(s, world).trace[|s.trace|] == Errored;
    }
  }

  lemma {:induction false} RunErrsExactly(s: State, events: seq<Event>, world: World)
    requires Invariant(s) && Errored !in s.trace
    ensures Errored in Run(s, events, world).trace <==> MeetsError(s, events, world)
    decreases |events|
  {
    hide Step, Errs, Invariant;
    if events != [] {
      StepErrsExactly(s, events[0], world);
      StepKeepsInvariant(s, events[0], world);
      var next := Step(s, events[0], world);
      if Errored in next.trace {
        ErrorStays(next, events[1..], world);
      } else {
        RunErrsExactly(next, events[1..], world);
      }
    }
  }

  lemma ErrorStays(s: State, events: seq<Event>, world: World)
    requires Invariant(s) && Errored in s.trace
    ensures Errored in Run(s, events, world).trace
  {
    var k :| 0 <= k < |s.trace| && s.trace[k] == Errored;
    assert IsEnd(s.trace[k]) && k == |s.trace| - 1;
    QuietAfterStop(s, events, world);
  }

  /**
   * A run errs exactly when the Modbus discovery fails while it is listened to, or, while it is not
   * over, an endpoint cannot be opened or a scan errs.
   */
  lemma ErrsExactly(events: seq<Event>, world: World)
    ensures Errored in Run(Initial, events, world).trace <==> MeetsError(Initial, events, world)
  {
    RunErrsExactly(Initial, events, world);
  }

  // What a run tells

  /**
   * What is to be told: of each endpoint opened while the discovery listens, the first thing found.
   * `count` endpoints are open already, and of those in `told` a thing has been told.
   */
  function Things(events: seq<Event>, listening: bool, count: nat, told: set<nat>): seq<Signal>
    decreases |events|
  {
    if events == [] then []
    else
      match events[0]
      case Enter => Things(events[1..], true, count, told)
      case Candidate(_) => Things(events[1..], listening, if listening then count + 1 else count, told)
      case Found(i) =>
        if i < count && i !in told then [Next(i)] + Things(events[1..], listening, count, told + {i})
        else Things(events[1..], listening, count, told)
      case _ => Things(events[1..], listening, count, told)
  }

  /** The events in front of the one that ends the run. */
  function Live(s: State, events: seq<Event>, world: World): (live: seq<Event>)
    ensures live <= events
    decreases |events|
  {
    if events == [] || Step(s, events[0], world).terminal then []
    else [events[0]] + Live(Step(s, events[0], world), events[1..], world)
  }

  ghost predicate ToldOf(s: State, told: set<nat>) {
    forall i: nat :: i in told <==> i < |s.endpoints| && s.endpoints[i].emitted
  }

  /** What a discovery at work tells on this event. */
  function Told(s: State, event: Event): seq<Signal> {
    if event.Found? && event.endpoint < |s.endpoints| && !s.endpoints[event.endpoint].emitted then [Next(event.endpoint)] else []
  }

  function ToldBehind(s: State, event: Event, told: set<nat>): set<nat> {
    if event.Found? && event.endpoint < |s.endpoints| then told + {event.endpoint} else told
  }

  function OpenedBehind(s: State, event: Event): nat {
    |s.endpoints| + if event.Candidate? && s.entered then 1 else 0
  }

  /** One event of a discovery at work. */
  lemma LiveStep(s: State, event: Event, world: World)
    requires Invariant(s) && !Over(s) && !event.Stop? && !Errs(s, event)
    ensures var after := Step(s, event, world);
            if after.terminal then after.trace == s.trace + [Completed]
            else
              && !Over(after) && after.entered == (s.entered || event.Enter?)
              && |after.endpoints| == OpenedBehind(s, event)
              && after.trace == s.trace + Told(s, event)
  {
    hide TraceFits, SessionsFit, CancelAndClose, Fail, Complete, MaybeComplete, CompleteScan, AllCompleted;
    if event.ScanCompleted? && event.endpoint < |s.endpoints| {
      LiveScanEnds(s, event.endpoint);
    } else if event.UpstreamCompleted? {
      LiveEnds(s.(upstreamCompleted := true));
    }
  }

  lemma LiveEnds(s: State)
    requires !Over(s)
    ensures var after := MaybeComplete(s);
            if after.terminal then after.trace == s.trace + [Completed] else after == s
  {
    hide AllCompleted;
  }

  lemma LiveScanEnds(s: State, i: nat)
    requires !Over(s) && i < |s.endpoints|
    ensures var after := CompleteScan(s, i);
            if after.terminal then after.trace == s.trace + [Completed]
            else after.trace == s.trace && after.entered == s.entered && !Over(after) && |after.endpoints| == |s.endpoints|
  {
    hide MaybeComplete;
    LiveEnds(s.(endpoints := s.endpoints[i := s.endpoints[i].(completed := true, open := 0)]));
  }

  lemma LiveStepEmits(s: State, event: Event, world: World)
    requires Invariant(s) && !Over(s) && !event.Stop? && !Errs(s, event) && !Step(s, event, world).terminal
    ensures var after := Step(s, event, world);
            && (forall i :: 0 <= i < |s.endpoints| && i < |after.endpoints| ==>
                  (after.endpoints[i].emitted <==> s.endpoints[i].emitted || event == Found(i)))
            && (forall i :: |s.endpoints| <= i < |after.endpoints| ==> !after.endpoints[i].emitted)
  {
    hide TraceFits, SessionsFit, CancelFrom, AllCompleted;
  }

  /** What the rest of a run tells, from a state on. */
  function Rest(s: State, events: seq<Event>, world: World, told: set<nat>): seq<Signal> {
    Things(Live(s, events, world), s.entered, |s.endpoints|, told) + if Run(s, events, world).terminal then [Completed] else []
  }

  lemma {:induction false} TellsFrom(s: State, events: seq<Event>, world: World, told: set<nat>)
    requires Invariant(s) && !Over(s) && Stop !in events && Errored !in Run(s, events, world).trace && ToldOf(s, told)
    ensures Run(s, events, world).trace == s.trace + Rest(s, events, world, told)
    decreases |events|
  {
    if events != [] {
      hide Step, Invariant, Over, Errs, Told, ToldBehind, OpenedBehind, ToldOf, Rest;
      var event, rest := events[0], events[1..];
      var next := Step(s, event, world);
      StepKeepsInvariant(s, event, world);
      StepErrs(s, event, rest, world);
      LiveStep(s, event, world);
      if next.terminal {
        EndsThere(s, events, world, told);
      } else {
        ToldOfMore(s, event, world, told);
        TellsFrom(next, rest, world, ToldBehind(s, event, told));
        RestBehind(s, events, world, told);
        InARow(s.trace, Told(s, event), Rest(next, rest, world, ToldBehind(s, event, told)));
      }
    }
  }

  lemma InARow(front: seq<Signal>, middle: seq<Signal>, back: seq<Signal>)
    ensures front + (middle + back) == front + middle + back
  {
  }

  lemma EndsThere(s: State, events: seq<Event>, world: World, told: set<nat>)
    requires events != [] && Invariant(s) && !Over(s)
    requires Step(s, events[0], world).terminal && Step(s, events[0], world).trace == s.trace + [Completed]
    ensures Run(s, events, world).trace == s.trace + Rest(s, events, world, told)
  {
    hide Step, Invariant, Over;
    var next := Step(s, events[0], world);
    StepKeepsInvariant(s, events[0], world);
    QuietAfterStop(next, events[1..], world);
    TerminalStays(next, events[1..], world);
    assert Live(s, events, world) == [];
  }

  lemma RestBehind(s: State, events: seq<Event>, world: World, told: set<nat>)
    requires events != [] && Invariant(s) && !Over(s) && !events[0].Stop? && !Errs(s, events[0]) && ToldOf(s, told)
    requires !Step(s, events[0], world).terminal
    ensures Rest(s, events, world, told)
         == Told(s, events[0]) + Rest(Step(s, events[0], world), events[1..], world, ToldBehind(s, events[0], told))
  {
    hide Step, Invariant, Over, Errs, Told, ToldBehind, OpenedBehind, ToldOf, Things, Live;
    LiveStep(s, events[0], world);
    TellsOne(s, events, world, told);
  }

  lemma ToldOfMore(s: State, event: Event, world: World, told: set<nat>)
    requires Invariant(s) && !Over(s) && !event.Stop? && !Errs(s, event) && ToldOf(s, told) && !Step(s, event, world).terminal
    ensures ToldOf(Step(s, event, world), ToldBehind(s, event, told))
  {
    hide Step, Invariant, Errs;
    LiveStep(s, event, world);
    LiveStepEmits(s, event, world);
  }

  /** An event that errs would leave its error in the trace. */
  lemma StepErrs(s: State, event: Event, rest: seq<Event>, world: World)
    requires Invariant(s) && !Over(s) && Errored !in Run(Step(s, event, world), rest, world).trace
    ensures !Errs(s, event)
  {
    hide Step, Errs;
    StepKeepsInvariant(s, event, world);
    if Errored in Step(s, event, world).trace {
      ErrorStays(Step(s, event, world), rest, world);
    }
    if Errored in s.trace {
      ErrorIsTerminal(s);
    }
    StepErrsExactly(s, event, world);
  }

  lemma ErrorIsTerminal(s: State)
    requires Invariant(s) && Errored in s.trace
    ensures s.terminal
  {
    var k :| 0 <= k < |s.trace| && s.trace[k] == Errored;
    assert IsEnd(s.trace[k]) && k == |s.trace| - 1;
  }

  lemma TellsOne(s: State, events: seq<Event>, world: World, told: set<nat>)
    requires events != [] && !Step(s, events[0], world).terminal && ToldOf(s, told)
    ensures Things(Live(s, events, world), s.entered, |s.endpoints|, told)
         == Told(s, events[0]) + Things(Live(Step(s, events[0], world), events[1..], world), s.entered || events[0].Enter?,
                                        OpenedBehind(s, events[0]), ToldBehind(s, events[0], told))
  {
    hide Step;
    var live := Live(s, events, world);
    assert live[0] == events[0] && live[1..] == Live(Step(s, events[0], world), events[1..], world);
    if events[0].Found? && events[0].endpoint in told {
      assert told + {events[0].endpoint} == told;
    }
  }

  /**
   * A run that is not stopped and does not err has told exactly the first thing of each endpoint
   * that has found one, in order, and then its completion.
   */
  lemma TellsExactlyTheFirstThings(events: seq<Event>, world: World)
    requires Stop !in events && Errored !in Run(Initial, events, world).trace
    ensures var s := Run(Initial, events, world);
            s.trace == Things(Live(Initial, events, world), false, 0, {}) + if s.terminal then [Completed] else []
  {
    hide Step, Things, Live, Run;
    TellsFrom(Initial, events, world, {});
  }

  /** `Things` tells of an endpoint exactly if it is opened and a thing found behind that, and only once. */
  predicate FindsBehindOpening(events: seq<Event>, listening: bool, count: nat, i: nat)
    decreases |events|
  {
    events != [] &&
    (|| (i < count && Found(i) in events)
     || FindsBehindOpening(events[1..], listening || events[0].Enter?,
                           if events[0].Candidate? && listening then count + 1 else count, i))
  }

  lemma {:induction false} ThingsAreFirstFindings(events: seq<Event>, listening: bool, count: nat, told: set<nat>, i: nat)
    ensures Next(i) in Things(events, listening, count, told) <==> i !in told && FindsBehindOpening(events, listening, count, i)
    decreases |events|
  {
    if events != [] {
      var event, rest := events[0], events[1..];
      assert events == [event] + rest;
      var listens := listening || event.Enter?;
      var more := if event.Candidate? && listening then count + 1 else count;
      ThingsAreFirstFindings(rest, listens, more, told, i);
      if event.Found? && event.endpoint < count && event.endpoint !in told {
        ThingsAreFirstFindings(rest, listening, count, told + {event.endpoint}, i);
      }
      if i < count && Found(i) in rest {
        FoundBehind(rest, listens, more, i);
      }
    }
  }

  lemma FoundBehind(events: seq<Event>, listening: bool, count: nat, i: nat)
    requires i < count && Found(i) in events
    ensures FindsBehindOpening(events, listening, count, i)
  {
  }

  // When a stop ends a run

  predicate ScanEnds(events: seq<Event>, i: nat) {
    ScanCompleted(i) in events || ScanFailed(i) in events
  }

  /** One event of a stopped discovery. */
  lemma StoppedStep(s: State, event: Event, world: World)
    requires Invariant(s) && s.stopping && s.entered && !s.terminal
    ensures var after := Step(s, event, world);
            && (!event.UpstreamFailed? ==>
                  && after.stopping && after.entered && |after.endpoints| == |s.endpoints|
                  && (after.upstreamCompleted <==> s.upstreamCompleted || event.UpstreamCompleted?)
                  && (forall i :: 0 <= i < |s.endpoints| ==>
                        (after.endpoints[i].completed <==> s.endpoints[i].completed || event == ScanCompleted(i) || event == ScanFailed(i)))
                  && (after.terminal <==> after.upstreamCompleted && AllCompleted(after)))
            && (event.UpstreamFailed? ==> after.terminal)
  {
    hide TraceFits, SessionsFit, CancelFrom;
    if event.UpstreamFailed? {
      FailSaysLittle(s, world);
    } else {
      SameCompletion(s, s.(upstreamCompleted := true));
    }
  }

  ghost predicate ScansEnd(s: State, events: seq<Event>) {
    forall i :: 0 <= i < |s.endpoints| && !s.endpoints[i].completed ==> ScanEnds(events, i)
  }

  lemma ScansEndBehind(s: State, after: State, events: seq<Event>)
    requires events != [] && |after.endpoints| == |s.endpoints|
    requires forall i :: 0 <= i < |s.endpoints| ==>
               (after.endpoints[i].completed <==>
                  s.endpoints[i].completed || events[0] == ScanCompleted(i) || events[0] == ScanFailed(i))
    ensures ScansEnd(s, events) <==> ScansEnd(after, events[1..])
  {
    assert events == [events[0]] + events[1..];
    forall i | 0 <= i < |s.endpoints|
      ensures !s.endpoints[i].completed && !ScanEnds(events, i) <==> !after.endpoints[i].completed && !ScanEnds(events[1..], i)
    {
    }
  }

  /** A stopped discovery ends with an upstream error, or once the Modbus discovery and all scans have ended. */
  lemma {:induction false} StoppedEnds(s: State, events: seq<Event>, world: World)
    requires Invariant(s) && s.stopping && s.entered && !s.terminal
    ensures Run(s, events, world).terminal <==>
              || UpstreamFailed in events
              || ((s.upstreamCompleted || UpstreamCompleted in events) && ScansEnd(s, events))
    decreases |events|
  {
    hide Step, Invariant;
    if events == [] {
      NotYetOver(s);
    } else {
      var event := events[0];
      var next := Step(s, event, world);
      assert events == [event] + events[1..];
      StoppedStep(s, event, world);
      StepKeepsInvariant(s, event, world);
      if next.terminal {
        TerminalStays(next, events[1..], world);
        if !event.UpstreamFailed? {
          ScansEndBehind(s, next, events);
        }
      } else {
        ScansEndBehind(s, next, events);
        StoppedEnds(next, events[1..], world);
      }
    }
  }

  lemma NotYetOver(s: State)
    requires Invariant(s) && s.entered && !s.terminal
    ensures s.upstreamCompleted ==> !ScansEnd(s, [])
  {
    if s.upstreamCompleted {
      var i :| 0 <= i < |s.endpoints| && !s.endpoints[i].completed;
      assert !ScanEnds([], i);
    }
  }

  lemma {:induction false} TerminalStays(s: State, events: seq<Event>, world: World)
    requires Invariant(s) && s.terminal
    ensures Run(s, events, world).terminal
    decreases |events|
  {
    hide Step, Invariant;
    if events != [] {
      QuietStep(s, events[0], world);
      StepKeepsInvariant(s, events[0], world);
      TerminalStays(Step(s, events[0], world), events[1..], world);
    }
  }

  /** What cancelling completes: the scans that complete as they are cancelled. */
  lemma {:induction false} CancelFromCompletes(s: State, i: nat, world: World, k: nat)
    requires Cancelling(s) && !s.failing && i <= |s.endpoints| && k < |s.endpoints|
    requires k >= i ==> !s.endpoints[k].cancelled
    ensures CancelFrom(s, i, world).endpoints[k].completed <==> s.endpoints[k].completed || (k >= i && world(k))
    decreases |s.endpoints| - i
  {
    if i < |s.endpoints| && !s.terminal {
      hide Cancelling, CompleteScan;
      var asked := s.(endpoints := s.endpoints[i := s.endpoints[i].(cancelled := true)]);
      AskCancels(s, i);
      CompleteScanCancels(asked, i);
      CompletesOne(asked, i, k);
      var next := if world(i) && !s.endpoints[i].cancelled then CompleteScan(asked, i) else asked;
      CancelFromCompletes(next, i + 1, world, k);
    } else if s.terminal {
      assert s.endpoints[k].completed;
    }
  }

  lemma CompletesOne(s: State, i: nat, k: nat)
    requires i < |s.endpoints| && k < |s.endpoints|
    ensures var after := CompleteScan(s, i);
            && (after.endpoints[k].completed <==> s.endpoints[k].completed || k == i)
            && after.endpoints[k].cancelled == s.endpoints[k].cancelled
  {
  }

  /** The scans still to end once a stop has cancelled them all. */
  lemma StopCompletesScans(s: State, world: World)
    requires Invariant(s) && s.entered && !Over(s)
    ensures var after := Step(s, Stop, world);
            && |after.endpoints| == |s.endpoints|
            && after.upstreamCompleted == s.upstreamCompleted
            && (forall k :: 0 <= k < |s.endpoints| ==> (after.endpoints[k].completed <==> s.endpoints[k].completed || world(k)))
  {
    hide CancelFrom, TraceFits;
    var stopping := s.(stopping := true);
    StoppingCancels(s);
    forall k | 0 <= k < |s.endpoints|
      ensures Step(s, Stop, world).endpoints[k].completed <==> s.endpoints[k].completed || world(k)
    {
      CancelFromCompletes(stopping, 0, world, k);
    }
    CancelFromKeepsUpstream(stopping, 0, world);
  }

  lemma {:induction false} CancelFromKeepsUpstream(s: State, i: nat, world: World)
    requires i <= |s.endpoints|
    ensures CancelFrom(s, i, world).upstreamCompleted == s.upstreamCompleted
    decreases |s.endpoints| - i
  {
    if i < |s.endpoints| && !s.terminal {
      var asked := s.(endpoints := s.endpoints[i := s.endpoints[i].(cancelled := true)]);
      CancelFromKeepsUpstream(if world(i) && !s.endpoints[i].cancelled then CompleteScan(asked, i) else asked, i + 1, world);
    }
  }

  /**
   * A stop ends a running discovery, at once or later, exactly when the Modbus discovery fails
   * afterwards, or it has completed or does afterwards and every scan not complete by then
   * completes as it is cancelled or ends afterwards.
   */
  lemma StopEndsExactly(events: seq<Event>, rest: seq<Event>, world: World)
    requires var s := Run(Initial, events, world); s.entered && !Over(s)
    ensures var s := Run(Initial, events, world);
            Run(Step(s, Stop, world), rest, world).terminal <==>
              || UpstreamFailed in rest
              || ((s.upstreamCompleted || UpstreamCompleted in rest)
                  && forall i :: 0 <= i < |s.endpoints| && !s.endpoints[i].completed ==> world(i) || ScanEnds(rest, i))
  {
    hide Step, TraceFits, SessionsFit;
    RunKeepsInvariant(Initial, events, world);
    var s := Run(Initial, events, world);
    var after := Step(s, Stop, world);
    StepKeepsInvariant(s, Stop, world);
    StopCompletesScans(s, world);
    StopsRunning(s, world);
    assert ScansEnd(after, rest) <==>
      forall i :: 0 <= i < |s.endpoints| && !s.endpoints[i].completed ==> world(i) || ScanEnds(rest, i);
    if after.terminal {
      TerminalStays(after, rest, world);
    } else {
      StoppedEnds(after, rest, world);
    }
  }

  lemma StopsRunning(s: State, world: World)
    requires Invariant(s) && s.entered && !Over(s)
    ensures var after := Step(s, Stop, world);
            after.stopping && after.entered && (after.terminal ==> after.upstreamCompleted && AllCompleted(after))
  {
    hide CancelFrom, TraceFits, SessionsFit;
    var stopping := s.(stopping := true);
    StoppingCancels(s);
    CancelFromCancels(stopping, 0, world);
    SameCompletion(CancelFrom(stopping, 0, world), Step(s, Stop, world));
  }
}
