/**
 * The Modbus discovery: every open port the port scan finds becomes one job for each unit id, and
 * a bounded number of identifiers works on the jobs, first come first served, until the port scan
 * has completed and no job is left, or until a stop or an error.
 */
module ModbusPump {
  import opened Bytes
  import opened Jobs

  /** The discovery refuses an empty list of unit ids and a concurrency of 0. */
  datatype Options = Options(unitIds: seq<byte>, maxConcurrency: nat)

  predicate ValidOptions(options: Options) {
    options.unitIds != [] && options.maxConcurrency > 0
  }

  datatype OpenPort = OpenPort(address: string, port: u16)

  datatype Job = Job(target: OpenPort, unit: byte)

  datatype Signal = Identified(job: nat) | Completed | Errored

  /**
   * `jobs` are all jobs ever made; those from `started` on are pending until a stop drops them.
   * `cancelled` are the identifiers a stop has cut off: they never report.
   */
  datatype State = State(
    begun: bool,
    subscribed: bool,
    upstreamCompleted: bool,
    stopped: bool,
    completed: bool,
    running: bool,
    jobs: seq<Job>,
    started: nat,
    active: seq<nat>,
    finished: seq<nat>,
    cancelled: seq<nat>,
    trace: seq<Signal>)

  const Initial := State(false, false, false, false, false, true, [], 0, [], [], [], [])

  datatype Event =
    | Start
    | Candidate(target: OpenPort)
    | UpstreamCompleted
    | UpstreamFailed
    | Report(job: nat, identified: bool)
    | Stop

  function JobsFor(options: Options, target: OpenPort): (jobs: seq<Job>)
    ensures |jobs| == |options.unitIds|
  {
    seq(|options.unitIds|, i requires 0 <= i < |options.unitIds| => Job(target, options.unitIds[i]))
  }

  function Pending(s: State): seq<nat> {
    if s.stopped || s.started > |s.jobs| then [] else Range(s.started, |s.jobs|)
  }

  function Finish(s: State): State {
    if s.completed then s
    else s.(completed := true, subscribed := false, running := false, trace := s.trace + [Completed])
  }

  function MaybeComplete(s: State): State {
    if s.completed || !s.upstreamCompleted || Pending(s) != [] || s.active != [] then s else Finish(s)
  }

  /** How far the jobs get started. */
  function Reach(options: Options, s: State): (reach: nat)
    ensures s.started <= reach
  {
    if s.stopped || |s.active| >= options.maxConcurrency || s.started >= |s.jobs| then s.started
    else if s.started + (options.maxConcurrency - |s.active|) <= |s.jobs|
    then s.started + (options.maxConcurrency - |s.active|)
    else |s.jobs|
  }

  function Launch(options: Options, s: State): State {
    var reach := Reach(options, s);
    s.(started := reach, active := s.active + Range(s.started, reach))
  }

  function Fill(options: Options, s: State): State {
    if s.completed then s else MaybeComplete(Launch(options, s))
  }

  /** Every identifier under way is cut off and every pending job dropped. */
  function Cut(s: State): State {
    s.(stopped := true, cancelled := s.cancelled + s.active, active := [])
  }

  /** An identifier leaves with its result. */
  function Reported(s: State, job: nat, identified: bool): State {
    s.(
      active := Without(s.active, job),
      finished := s.finished + [job],
      trace := if !s.stopped && identified then s.trace + [Identified(job)] else s.trace)
  }

  function Step(options: Options, s: State, event: Event): State {
    match event
    case Start =>
      if s.begun then s
      else if s.stopped then Finish(s.(begun := true, upstreamCompleted := true))
      else s.(begun := true, subscribed := true)
    case Candidate(target) =>
      if !s.subscribed || s.stopped then s
      else Fill(options, s.(jobs := s.jobs + JobsFor(options, target)))
    case UpstreamCompleted =>
      if !s.subscribed then s else MaybeComplete(s.(upstreamCompleted := true))
    case UpstreamFailed =>
      if !s.subscribed || s.completed then s
      else Cut(s).(completed := true, subscribed := false, running := false, trace := s.trace + [Errored])
    case Report(job, identified) =>
      if job !in s.active then s
      else
        Fill(options, Reported(s, job, identified))
    case Stop =>
      if s.stopped then s
      else if s.active == [] then MaybeComplete(Cut(s))
      else Cut(s)
  }

  function Run(options: Options, s: State, events: seq<Event>): State
    decreases |events|
  {
    if events == [] then s else Run(options, Step(options, s, events[0]), events[1..])
  }

  // What every run keeps

  ghost predicate Conserved(s: State) {
    multiset(s.active) + multiset(s.cancelled) + multiset(s.finished) == multiset(Range(0, s.started))
  }

  predicate Terminal(signal: Signal) {
    signal.Completed? || signal.Errored?
  }

  ghost predicate TraceFits(s: State) {
    && (forall i :: 0 <= i < |s.trace| && Terminal(s.trace[i]) ==> i == |s.trace| - 1)
    && (s.completed <==> s.trace != [] && Terminal(s.trace[|s.trace| - 1]))
  }

  ghost predicate Invariant(options: Options, s: State) {
    && Conserved(s)
    && TraceFits(s)
    && s.started <= |s.jobs|
    && |s.active| + |s.cancelled| <= options.maxConcurrency
    && (!s.stopped ==> s.cancelled == [] && (s.started < |s.jobs| ==> |s.active| == options.maxConcurrency))
    && (s.stopped || s.completed ==> s.active == [])
    && (s.running <==> !s.completed)
    && (s.subscribed <==> s.begun && !s.completed)
    && (!s.begun ==> s.jobs == [] && s.active == [] && !s.upstreamCompleted && !s.completed)
    && (s.upstreamCompleted && !s.stopped && !s.completed ==> s.active != [])
    && (s.completed && s.trace[|s.trace| - 1].Completed? ==> s.upstreamCompleted && s.active == [] && Pending(s) == [])
    && (s.stopped && s.upstreamCompleted && !s.completed ==> s.cancelled != [])
  }

  lemma LaunchConserves(options: Options, s: State)
    requires Conserved(s)
    ensures Conserved(Launch(options, s))
  {
    var reach := Reach(options, s);
    RangeGrows(s.started, reach);
    assert multiset(s.active + Range(s.started, reach)) == multiset(s.active) + multiset(Range(s.started, reach));
  }

  lemma FinishConserves(s: State)
    ensures Conserved(MaybeComplete(s)) <==> Conserved(s)
  {
  }

  lemma FillKeepsInvariant(options: Options, s: State)
    requires ValidOptions(options) && s.begun && s.started <= |s.jobs|
    requires Conserved(s) && TraceFits(s)
    requires !s.stopped && !s.completed && s.running && s.subscribed
    requires |s.active| <= options.maxConcurrency && s.cancelled == []
    ensures Invariant(options, Fill(options, s))
  {
    hide Conserved;
    LaunchConserves(options, s);
    FinishConserves(Launch(options, s));
  }

  lemma ReportConserves(s: State, job: nat, identified: bool)
    requires Conserved(s) && job in s.active
    ensures Conserved(Reported(s, job, identified))
    ensures |Reported(s, job, identified).active| == |s.active| - 1
  {
    hide Without, Range;
    JobMoves(s.active, s.cancelled, s.finished, job);
  }

  lemma ReportKeepsInvariant(options: Options, s: State, job: nat, identified: bool)
    requires ValidOptions(options) && Invariant(options, s) && job in s.active
    ensures Invariant(options, Step(options, s, Report(job, identified)))
  {
    hide Fill, Range, Without, Conserved;
    ReportConserves(s, job, identified);
    FillKeepsInvariant(options, Reported(s, job, identified));
  }

  lemma CutConserves(s: State)
    ensures Conserved(Cut(s)) <==> Conserved(s)
  {
  }

  lemma EndKeepsInvariant(options: Options, s: State, event: Event)
    requires ValidOptions(options) && Invariant(options, s)
    requires event.UpstreamFailed? || event.Stop?
    ensures Invariant(options, Step(options, s, event))
  {
    hide Range, Without, Conserved;
    CutConserves(s);
    FinishConserves(Cut(s));
    Unmoved(Cut(s), Cut(s).(completed := true, subscribed := false, running := false, trace := s.trace + [Errored]));
  }

  lemma StepKeepsInvariant(options: Options, s: State, event: Event)
    requires ValidOptions(options) && Invariant(options, s)
    ensures Invariant(options, Step(options, s, event))
  {
    hide Range, Without, Conserved, JobsFor, Cut;
    match event
    case Start =>
      Unmoved(s, Step(options, s, Start));
    case Candidate(target) =>
      var next := s.(jobs := s.jobs + JobsFor(options, target));
      Unmoved(s, next);
      if s.subscribed && !s.stopped {
        FillKeepsInvariant(options, next);
      }
    case UpstreamCompleted =>
      Unmoved(s, Step(options, s, UpstreamCompleted));
    case Report(job, identified) =>
      if job in s.active {
        ReportKeepsInvariant(options, s, job, identified);
      }
    case UpstreamFailed =>
      EndKeepsInvariant(options, s, event);
    case Stop =>
      EndKeepsInvariant(options, s, event);
  }

  lemma Unmoved(s: State, t: State)
    requires s.active == t.active && s.cancelled == t.cancelled && s.finished == t.finished && s.started == t.started
    ensures Conserved(s) <==> Conserved(t)
  {
  }

  lemma {:induction false} RunKeepsInvariant(options: Options, s: State, events: seq<Event>)
    requires ValidOptions(options) && Invariant(options, s)
    ensures Invariant(options, Run(options, s, events))
    decreases |events|
  {
    if events != [] {
      StepKeepsInvariant(options, s, events[0]);
      RunKeepsInvariant(options, Step(options, s, events[0]), events[1..]);
    }
  }

  lemma Reachable(options: Options, events: seq<Event>)
    requires ValidOptions(options)
    ensures Invariant(options, Run(options, Initial, events))
  {
    RunKeepsInvariant(options, Initial, events);
  }

  /**
   * In every run each job made is pending, under way, cut off or finished, and only one of these,
   * once; no more identifiers than allowed are under way, and jobs wait only while that many are.
   */
  lemma JobsAreConserved(options: Options, events: seq<Event>)
    requires ValidOptions(options)
    ensures var s := Run(options, Initial, events);
            && s.started <= |s.jobs|
            && multiset(s.active) + multiset(s.cancelled) + multiset(s.finished) == multiset(Range(0, s.started))
            && |s.active| <= options.maxConcurrency
            && (!s.stopped ==> multiset(s.active) + multiset(s.finished) + multiset(Pending(s)) == multiset(Range(0, |s.jobs|)))
            && (Pending(s) != [] ==> |s.active| == options.maxConcurrency)
  {
    hide Without;
    Reachable(options, events);
    var s := Run(options, Initial, events);
    if !s.stopped {
      RangeGrows(s.started, |s.jobs|);
      assert multiset(s.cancelled) == multiset{};
      assert multiset(Range(0, |s.jobs|)) == multiset(Range(0, s.started)) + multiset(Range(s.started, |s.jobs|));
    }
  }

  function Targets(events: seq<Event>): seq<OpenPort> {
    if events == [] then []
    else (if events[0].Candidate? then [events[0].target] else []) + Targets(events[1..])
  }

  /** Each port in turn on each unit id in turn. */
  function AllJobs(options: Options, targets: seq<OpenPort>): seq<Job> {
    if targets == [] then [] else JobsFor(options, targets[0]) + AllJobs(options, targets[1..])
  }

  /** The port scan finds nothing more once it has completed. */
  predicate CandidatesFirst(events: seq<Event>) {
    if events == [] then true
    else if events[0].UpstreamCompleted? then Targets(events[1..]) == []
    else CandidatesFirst(events[1..])
  }

  lemma FillKeepsJobs(options: Options, s: State)
    ensures Fill(options, s).jobs == s.jobs
  {
  }

  /** Only a candidate makes jobs. */
  lemma StepKeepsJobs(options: Options, s: State, event: Event)
    requires !event.Candidate?
    ensures Step(options, s, event).jobs == s.jobs
  {
    hide Fill;
    if event.Report? {
      FillKeepsJobs(options, Reported(s, event.job, event.identified));
    }
  }

  lemma {:induction false} NoTargetsNoJobs(options: Options, s: State, events: seq<Event>)
    requires Targets(events) == []
    ensures Run(options, s, events).jobs == s.jobs
    decreases |events|
  {
    hide Step;
    if events != [] {
      StepKeepsJobs(options, s, events[0]);
      NoTargetsNoJobs(options, Step(options, s, events[0]), events[1..]);
    }
  }

  /** While the port scan goes on, the discovery listens to it. */
  ghost predicate Listening(s: State) {
    s.begun && s.subscribed && !s.stopped && !s.upstreamCompleted && !s.completed
  }

  lemma StepListens(options: Options, s: State, event: Event)
    requires Listening(s) && !event.Stop? && !event.UpstreamFailed? && !event.UpstreamCompleted?
    ensures Listening(Step(options, s, event))
    ensures event.Candidate? ==> Step(options, s, event).jobs == s.jobs + JobsFor(options, event.target)
  {
    hide Reach, Range, Without, JobsFor;
  }

  lemma {:induction false} JobsOfTargets(options: Options, s: State, events: seq<Event>)
    requires Listening(s) && Stop !in events && UpstreamFailed !in events && CandidatesFirst(events)
    ensures Run(options, s, events).jobs == s.jobs + AllJobs(options, Targets(events))
    decreases |events|
  {
    hide Step, JobsFor, Listening;
    if events == [] {
      assert s.jobs + [] == s.jobs;
    } else {
      var event, rest := events[0], events[1..];
      var next := Step(options, s, event);
      if event.UpstreamCompleted? {
        StepKeepsJobs(options, s, event);
        NoTargetsNoJobs(options, next, rest);
        assert [] + Targets(rest) == [] && s.jobs + [] == s.jobs;
      } else {
        StepListens(options, s, event);
        JobsOfTargets(options, next, rest);
        if event.Candidate? {
          assert ([event.target] + Targets(rest))[1..] == Targets(rest);
          assert s.jobs + JobsFor(options, event.target) + AllJobs(options, Targets(rest))
              == s.jobs + (JobsFor(options, event.target) + AllJobs(options, Targets(rest)));
        } else {
          StepKeepsJobs(options, s, event);
          assert [] + Targets(rest) == Targets(rest);
        }
      }
    }
  }

  /**
   * In every run that is neither stopped nor failed, before, during and after the port scan's end,
   * the jobs are each open port found on each unit id, in order.
   */
  lemma JobsOfAllTargets(options: Options, events: seq<Event>)
    requires Stop !in events && UpstreamFailed !in events && CandidatesFirst(events)
    ensures Run(options, Initial, [Start] + events).jobs == AllJobs(options, Targets(events))
  {
    assert ([Start] + events)[1..] == events;
    var begun := Step(options, Initial, Start);
    JobsOfTargets(options, begun, events);
    assert begun.jobs + AllJobs(options, Targets(events)) == AllJobs(options, Targets(events));
  }

  /** Each open port in turn is tried on each unit id in turn. */
  lemma {:induction false} JobsByPortAndUnit(options: Options, targets: seq<OpenPort>, i: nat, j: nat)
    requires i < |targets| && j < |options.unitIds|
    ensures |AllJobs(options, targets)| == |targets| * |options.unitIds|
    ensures i * |options.unitIds| + j < |targets| * |options.unitIds|
    ensures AllJobs(options, targets)[i * |options.unitIds| + j] == Job(targets[i], options.unitIds[j])
    decreases |targets|
  {
    var units, rest := |options.unitIds|, targets[1..];
    AllJobsLength(options, targets);
    AllJobsLength(options, rest);
    assert (|targets| - 1) * units == |targets| * units - units;
    if i > 0 {
      JobsByPortAndUnit(options, rest, i - 1, j);
      assert (i - 1) * units == i * units - units;
    } else {
      assert 0 * units == 0;
      assert |targets| * units == units + |rest| * units;
      assert |rest| * units >= 0;
    }
  }

  lemma {:induction false} AllJobsLength(options: Options, targets: seq<OpenPort>)
    ensures |AllJobs(options, targets)| == |targets| * |options.unitIds|
    decreases |targets|
  {
    if targets != [] {
      AllJobsLength(options, targets[1..]);
      assert (|targets| - 1) * |options.unitIds| == |targets| * |options.unitIds| - |options.unitIds|;
    }
  }

  /** A discovery that is not stopped completes exactly when the port scan has and every job is finished. */
  lemma CompletesExactly(options: Options, events: seq<Event>)
    requires ValidOptions(options)
    requires var s := Run(options, Initial, events); s.begun && !s.stopped
    ensures var s := Run(options, Initial, events);
            s.completed <==> s.upstreamCompleted && multiset(s.finished) == multiset(Range(0, |s.jobs|))
  {
    hide Without;
    Reachable(options, events);
    var s := Run(options, Initial, events);
    assert multiset(s.cancelled) == multiset{};
    if s.completed {
      assert s.trace[|s.trace| - 1].Completed? by { ErrorMeansStopped(options, Initial, events); }
      assert multiset(s.active) == multiset{} && s.started == |s.jobs|;
    } else if s.active != [] {
      var job := s.active[0];
      RangeCounts(0, s.started, job);
      RangeCounts(0, |s.jobs|, job);
      assert multiset(s.active)[job] > 0;
      assert (multiset(s.active) + multiset(s.cancelled) + multiset(s.finished))[job] == multiset(Range(0, s.started))[job];
      assert multiset(s.finished)[job] == 0;
    }
  }

  lemma FillKeepsQuiet(options: Options, s: State)
    ensures var after := Fill(options, s);
            after.stopped == s.stopped && (after.trace == s.trace || after.trace == s.trace + [Completed])
  {
  }

  lemma ErrorStops(options: Options, s: State, event: Event)
    requires Errored in s.trace ==> s.stopped
    ensures var after := Step(options, s, event); Errored in after.trace ==> after.stopped
  {
    hide Without, Range, JobsFor, Reach, Fill;
    match event
    case Candidate(target) =>
      FillKeepsQuiet(options, s.(jobs := s.jobs + JobsFor(options, target)));
    case Report(job, identified) =>
      FillKeepsQuiet(options, Reported(s, job, identified));
    case _ =>
  }

  lemma {:induction false} ErrorMeansStopped(options: Options, s: State, events: seq<Event>)
    requires Errored in s.trace ==> s.stopped
    ensures var after := Run(options, s, events); Errored in after.trace ==> after.stopped
    decreases |events|
  {
    if events != [] {
      hide Step;
      ErrorStops(options, s, events[0]);
      ErrorMeansStopped(options, Step(options, s, events[0]), events[1..]);
    }
  }

  lemma {:induction false} StopsOnlyWhenTold(options: Options, s: State, events: seq<Event>)
    requires s.begun && !s.stopped && Stop !in events && UpstreamFailed !in events
    ensures Run(options, s, events).begun && !Run(options, s, events).stopped
    decreases |events|
  {
    if events != [] {
      hide Launch, Without, JobsFor;
      StopsOnlyWhenTold(options, Step(options, s, events[0]), events[1..]);
    }
  }

  /**
   * A discovery that completes without a stop has finished exactly the jobs of all ports found on
   * all unit ids, each once.
   */
  lemma CompletedFinishesAllTargets(options: Options, events: seq<Event>)
    requires ValidOptions(options)
    requires Stop !in events && UpstreamFailed !in events && CandidatesFirst(events)
    requires Run(options, Initial, [Start] + events).completed
    ensures var s := Run(options, Initial, [Start] + events);
            && s.jobs == AllJobs(options, Targets(events))
            && multiset(s.finished) == multiset(Range(0, |AllJobs(options, Targets(events))|))
  {
    hide Step, AllJobs, CandidatesFirst, Range;
    assert ([Start] + events)[1..] == events;
    Begins(options);
    StopsOnlyWhenTold(options, Step(options, Initial, Start), events);
    JobsOfAllTargets(options, events);
    CompletesExactly(options, [Start] + events);
  }

  lemma Begins(options: Options)
    ensures var begun := Step(options, Initial, Start); begun.begun && !begun.stopped
  {
  }

  /** What a finished or stopped discovery still says: at most that it is over, once. */
  lemma {:induction false} QuietAfterEnd(options: Options, s: State, events: seq<Event>)
    requires ValidOptions(options) && Invariant(options, s) && (s.stopped || s.completed)
    ensures var after := Run(options, s, events);
            || after.trace == s.trace
            || (!s.completed && (after.trace == s.trace + [Completed] || after.trace == s.trace + [Errored]))
    ensures s.completed ==> Run(options, s, events).trace == s.trace
    decreases |events|
  {
    if events != [] {
      StepKeepsInvariant(options, s, events[0]);
      QuietStep(options, s, events[0]);
      QuietAfterEnd(options, Step(options, s, events[0]), events[1..]);
    }
  }

  lemma QuietStep(options: Options, s: State, event: Event)
    requires ValidOptions(options) && Invariant(options, s) && (s.stopped || s.completed)
    ensures var after := Step(options, s, event);
            && (after.stopped || after.completed)
            && (s.completed ==> after.completed && after.trace == s.trace)
            && if after.completed && !s.completed
               then after.trace == s.trace + [Completed] || after.trace == s.trace + [Errored]
               else after.trace == s.trace
  {
  }

  // What a stop leads to

  predicate UpstreamEnds(events: seq<Event>) {
    UpstreamCompleted in events || UpstreamFailed in events
  }

  lemma StoppedStep(options: Options, s: State, event: Event)
    requires ValidOptions(options) && Invariant(options, s) && s.stopped && !s.completed
    ensures var after := Step(options, s, event);
            && after.stopped
            && after.begun == (s.begun || event.Start?)
            && (after.completed <==> if s.begun then event.UpstreamCompleted? || event.UpstreamFailed? else event.Start?)
  {
  }

  /** A stopped discovery ends with the port scan's end, or when it is started. */
  lemma {:induction false} StoppedEnds(options: Options, s: State, events: seq<Event>)
    requires ValidOptions(options) && Invariant(options, s) && s.stopped && !s.completed
    ensures Run(options, s, events).completed <==> if s.begun then UpstreamEnds(events) else Start in events
    decreases |events|
  {
    if events != [] {
      var next := Step(options, s, events[0]);
      StepKeepsInvariant(options, s, events[0]);
      StoppedStep(options, s, events[0]);
      if next.completed {
        StaysCompleted(options, next, events[1..]);
      } else {
        StoppedEnds(options, next, events[1..]);
      }
    }
  }

  lemma {:induction false} StaysCompleted(options: Options, s: State, events: seq<Event>)
    requires ValidOptions(options) && Invariant(options, s) && s.completed
    ensures Run(options, s, events).completed
    decreases |events|
  {
    if events != [] {
      StepKeepsInvariant(options, s, events[0]);
      QuietStep(options, s, events[0]);
      StaysCompleted(options, Step(options, s, events[0]), events[1..]);
    }
  }

  /**
   * A stop is followed by the end of the discovery exactly when the port scan had not completed
   * before it and ends after it, or when the discovery had not begun and begins. The port scan
   * ends at most once.
   */
  lemma StopCompletesExactly(options: Options, events: seq<Event>, rest: seq<Event>)
    requires ValidOptions(options)
    requires var s := Run(options, Initial, events);
             && !s.stopped && !s.completed
             && (s.upstreamCompleted ==> !UpstreamEnds(rest))
    ensures var s := Run(options, Initial, events);
            Run(options, Step(options, s, Stop), rest).completed
            <==> (if s.begun then !s.upstreamCompleted && UpstreamEnds(rest) else Start in rest)
  {
    hide Without, Range, Conserved, JobsFor;
    Reachable(options, events);
    var s := Run(options, Initial, events);
    StepKeepsInvariant(options, s, Stop);
    StoppedEnds(options, Step(options, s, Stop), rest);
  }

  /** One open port and the end of the port scan leave an identifier at work. */
  lemma IdentifierAtWork(options: Options, target: OpenPort)
    requires ValidOptions(options)
    ensures var s := Run(options, Initial, [Start, Candidate(target), UpstreamCompleted]);
            && s.begun && s.upstreamCompleted && !s.stopped && !s.completed && s.active != []
  {
    ThreeSteps(options, Start, Candidate(target), UpstreamCompleted);
    FirstJobStarts(options, target);
  }

  lemma FirstJobStarts(options: Options, target: OpenPort)
    requires ValidOptions(options)
    ensures var s := Step(options, Step(options, Initial, Start), Candidate(target));
            s.active != [] && s.begun && s.subscribed && !s.stopped && !s.completed
  {
  }

  /** Stopped behind the port scan's end with an identifier under way, the discovery never ends. */
  lemma StopStrandsDiscovery(options: Options, target: OpenPort, rest: seq<Event>)
    requires ValidOptions(options) && !UpstreamEnds(rest)
    ensures var s := Run(options, Initial, [Start, Candidate(target), UpstreamCompleted, Stop]);
            && s.cancelled != []
            && !Run(options, s, rest).completed && Run(options, s, rest).running
  {
    hide Step, UpstreamEnds;
    var events := [Start, Candidate(target), UpstreamCompleted];
    var s := Run(options, Initial, events);
    var stopped := Step(options, s, Stop);
    IdentifierAtWork(options, target);
    assert events + [Stop] == [Start, Candidate(target), UpstreamCompleted, Stop];
    RunAppend(options, Initial, events, [Stop]);
    assert Run(options, s, [Stop]) == Run(options, stopped, []) == stopped;
    StopCutsOff(options, s);
    StopCompletesExactly(options, events, rest);
    Reachable(options, events + [Stop]);
    RunKeepsInvariant(options, stopped, rest);
  }

  lemma StopCutsOff(options: Options, s: State)
    requires !s.stopped && s.active != []
    ensures Step(options, s, Stop).cancelled != []
  {
  }

  lemma ThreeSteps(options: Options, first: Event, second: Event, third: Event)
    ensures Run(options, Initial, [first, second, third])
         == Step(options, Step(options, Step(options, Initial, first), second), third)
  {
    hide Step;
    var events := [first, second, third];
    assert events[1..] == [second, third] && events[1..][1..] == [third] && events[1..][1..][1..] == [];
    var s1 := Step(options, Initial, first);
    var s2 := Step(options, s1, second);
    assert Run(options, s2, [third]) == Run(options, Step(options, s2, third), []);
    assert Run(options, s1, [second, third]) == Run(options, s2, [third]);
  }

  lemma {:induction false} RunAppend(options: Options, s: State, first: seq<Event>, second: seq<Event>)
    ensures Run(options, s, first + second) == Run(options, Run(options, s, first), second)
    decreases |first|
  {
    if first == [] {
      assert first + second == second;
    } else {
      assert (first + second)[1..] == first[1..] + second;
      RunAppend(options, Step(options, s, first[0]), first[1..], second);
    }
  }

  // What the observer sees

  function Identifications(known: nat -> bool, jobs: seq<nat>): seq<Signal> {
    if jobs == [] then []
    else Identifications(known, jobs[..|jobs| - 1])
         + if known(jobs[|jobs| - 1]) then [Identified(jobs[|jobs| - 1])] else []
  }

  /** Every report says of a job whether there is a device to identify. */
  ghost predicate Honest(known: nat -> bool, events: seq<Event>) {
    forall event :: event in events && event.Report? ==> event.identified == known(event.job)
  }

  ghost predicate TellsKnown(known: nat -> bool, s: State) {
    s.trace == Identifications(known, s.finished) + if s.completed then [Completed] else []
  }

  lemma FillTells(options: Options, known: nat -> bool, s: State)
    requires !s.completed && TellsKnown(known, s)
    ensures TellsKnown(known, Fill(options, s)) && Fill(options, s).stopped == s.stopped
  {
  }

  lemma StepTells(options: Options, known: nat -> bool, s: State, event: Event)
    requires ValidOptions(options) && Invariant(options, s) && !s.stopped && TellsKnown(known, s)
    requires !event.Stop? && !event.UpstreamFailed? && (event.Report? ==> event.identified == known(event.job))
    ensures TellsKnown(known, Step(options, s, event)) && !Step(options, s, event).stopped
  {
    hide Range, Without, Conserved, JobsFor, Reach, Fill;
    match event
    case Candidate(target) =>
      if s.subscribed && !s.stopped {
        FillTells(options, known, s.(jobs := s.jobs + JobsFor(options, target)));
      }
    case Report(job, identified) =>
      if job in s.active {
        assert (s.finished + [job])[..|s.finished|] == s.finished;
        FillTells(options, known, Reported(s, job, identified));
      }
    case _ =>
  }

  /** A discovery tells of exactly the jobs with a device, in the order they finish, and then that it is over. */
  lemma {:induction false} TellsExactlyTheKnown(options: Options, known: nat -> bool, s: State, events: seq<Event>)
    requires ValidOptions(options) && Invariant(options, s) && !s.stopped && TellsKnown(known, s)
    requires Stop !in events && UpstreamFailed !in events && Honest(known, events)
    ensures TellsKnown(known, Run(options, s, events))
    decreases |events|
  {
    if events != [] {
      StepTells(options, known, s, events[0]);
      StepKeepsInvariant(options, s, events[0]);
      TellsExactlyTheKnown(options, known, Step(options, s, events[0]), events[1..]);
    }
  }

  // What is told, by the reports as they come

  predicate UnderWay(s: State, event: Event) {
    event.Report? && event.job in s.active
  }

  /** The jobs under way that report, in the order of their reports. */
  function Reporting(options: Options, s: State, events: seq<Event>): seq<nat>
    decreases |events|
  {
    if events == [] then []
    else (if UnderWay(s, events[0]) then [events[0].job] else []) + Reporting(options, Step(options, s, events[0]), events[1..])
  }

  function Known(s: State, event: Event): seq<nat> {
    if UnderWay(s, event) && event.identified then [event.job] else []
  }

  /** Those of them that report a device. */
  function Knowing(options: Options, s: State, events: seq<Event>): seq<nat>
    decreases |events|
  {
    if events == [] then []
    else Known(s, events[0]) + Knowing(options, Step(options, s, events[0]), events[1..])
  }

  function IdentifiedJobs(jobs: seq<nat>): seq<Signal> {
    seq(|jobs|, i requires 0 <= i < |jobs| => Identified(jobs[i]))
  }

  function Ending(before: State, after: State): seq<Signal> {
    if after.completed && !before.completed then [Completed] else []
  }

  lemma FillEnds(options: Options, s: State)
    requires !s.stopped
    ensures var after := Fill(options, s);
            && after.trace == s.trace + Ending(s, after) && after.finished == s.finished
            && !after.stopped && (s.completed ==> after.completed)
  {
  }

  lemma OneReport(options: Options, s: State, event: Event)
    requires Invariant(options, s) && !s.stopped && !event.Stop? && !event.UpstreamFailed?
    ensures var after := Step(options, s, event);
            && !after.stopped && (s.completed ==> after.completed && Known(s, event) == [])
            && after.finished == s.finished + (if UnderWay(s, event) then [event.job] else [])
            && after.trace == s.trace + IdentifiedJobs(Known(s, event)) + Ending(s, after)
  {
    hide Range, Without, Conserved, JobsFor, Fill;
    match event
    case Candidate(target) =>
      FillEnds(options, s.(jobs := s.jobs + JobsFor(options, target)));
    case Report(job, identified) =>
      FillEnds(options, Reported(s, job, identified));
    case _ =>
  }

  /**
   * In a run that is neither stopped nor fails, the jobs finished are those under way that have
   * reported, in the order of their reports, and what is told is each that reported a device, in
   * that order too, and then the completion.
   */
  lemma {:induction false} TellsEachKnownReport(options: Options, s: State, events: seq<Event>)
    requires ValidOptions(options) && Invariant(options, s) && !s.stopped && Stop !in events && UpstreamFailed !in events
    ensures var after := Run(options, s, events);
            && after.finished == s.finished + Reporting(options, s, events)
            && after.trace == s.trace + IdentifiedJobs(Knowing(options, s, events)) + Ending(s, after)
            && (s.completed ==> after.completed && Knowing(options, s, events) == [])
    decreases |events|
  {
    hide Step, Invariant, IdentifiedJobs, UnderWay, Known;
    if events == [] {
      NoneIdentified();
    } else {
      var next, rest := Step(options, s, events[0]), events[1..];
      OneReport(options, s, events[0]);
      StepKeepsInvariant(options, s, events[0]);
      TellsEachKnownReport(options, next, rest);
      IdentifiedJoined(Known(s, events[0]), Knowing(options, next, rest));
      NoneIdentified();
    }
  }

  lemma NoneIdentified()
    ensures IdentifiedJobs([]) == []
  {
  }

  lemma IdentifiedJoined(first: seq<nat>, second: seq<nat>)
    ensures IdentifiedJobs(first + second) == IdentifiedJobs(first) + IdentifiedJobs(second)
  {
  }
}
