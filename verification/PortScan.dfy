/**
 * The TCP port scan: every address is dialled on every port, a bounded number of connection
 * attempts at a time, until all have reported or the scan is stopped.
 */
module PortScan {
  import opened Arithmetic
  import opened Bytes
  import opened Jobs

  /** What a scan is given; the scanner refuses a concurrency of 0. */
  datatype Plan = Plan(addresses: seq<string>, ports: seq<u16>, maxConcurrency: nat)

  predicate ValidPlan(plan: Plan) {
    plan.maxConcurrency > 0
  }

  function JobCount(plan: Plan): nat {
    |plan.addresses| * |plan.ports|
  }

  datatype Target = Target(address: string, port: u16)

  /** The address and port that attempt number `job` dials. */
  function TargetOf(plan: Plan, job: nat): Target
    requires job < JobCount(plan)
  {
    QuotientInRange(job, |plan.addresses|, |plan.ports|);
    Target(plan.addresses[job / |plan.ports|], plan.ports[job % |plan.ports|])
  }

  datatype Signal = Found(target: Target) | Completed

  /**
   * `next` is the first job not started; `active` the jobs under way; `cancelled` those a stop
   * has cut off and whose connectors still report; `reported` the jobs whose connectors have.
   */
  datatype State = State(
    begun: bool,
    next: nat,
    active: seq<nat>,
    cancelled: seq<nat>,
    reported: seq<nat>,
    stopped: bool,
    completed: bool,
    trace: seq<Signal>)

  const Initial := State(false, 0, [], [], [], false, false, [])

  datatype Event = Begin | Report(job: nat, open: bool) | Stop

  function Findings(plan: Plan, job: nat, found: bool): seq<Signal> {
    if found && job < JobCount(plan) then [Found(TargetOf(plan, job))] else []
  }

  function Finish(s: State): State {
    if s.completed then s else s.(completed := true, trace := s.trace + [Completed])
  }

  /** How far the jobs get started when `busy` attempts are under way. */
  function Reach(plan: Plan, next: nat, busy: nat): (reach: nat)
    ensures next <= reach
  {
    if busy >= plan.maxConcurrency || next >= JobCount(plan) then next
    else if next + (plan.maxConcurrency - busy) <= JobCount(plan) then next + (plan.maxConcurrency - busy)
    else JobCount(plan)
  }

  function Fill(plan: Plan, s: State): State {
    if s.stopped then
      Finish(s)
    else
      var reach := Reach(plan, s.next, |s.active|);
      var filled := s.(next := reach, active := s.active + Range(s.next, reach));
      if filled.active == [] && reach >= JobCount(plan) then Finish(filled) else filled
  }

  function Step(plan: Plan, s: State, event: Event): State {
    match event
    case Begin =>
      if s.begun then s else Fill(plan, s.(begun := true))
    case Report(job, open) =>
      if job in s.active then
        Fill(plan, s.(
          active := Without(s.active, job),
          reported := s.reported + [job],
          trace := s.trace + Findings(plan, job, open && !s.stopped)))
      else if job in s.cancelled then
        Fill(plan, s.(cancelled := Without(s.cancelled, job), reported := s.reported + [job]))
      else
        s
    case Stop =>
      if s.stopped then s
      else
        var cut := s.(stopped := true, cancelled := s.cancelled + s.active, active := []);
        if s.active == [] then Finish(cut) else cut
  }

  function Run(plan: Plan, s: State, events: seq<Event>): State
    decreases |events|
  {
    if events == [] then s else Run(plan, Step(plan, s, events[0]), events[1..])
  }

  // The jobs are the pairs

  /** Job numbers and pairs of an address and a port correspond one to one. */
  lemma JobsArePairs(plan: Plan, row: nat, column: nat, job: nat)
    requires row < |plan.addresses| && column < |plan.ports|
    ensures row * |plan.ports| + column < JobCount(plan)
    ensures TargetOf(plan, row * |plan.ports| + column) == Target(plan.addresses[row], plan.ports[column])
    ensures job / |plan.ports| == row && job % |plan.ports| == column <==> job == row * |plan.ports| + column
  {
    var columns := |plan.ports|;
    ProductsOrdered(row + 1, |plan.addresses|, columns);
    assert (row + 1) * columns == row * columns + columns;
    DivisionIs(row * columns + column, columns, row, column);
    assert job == (job / columns) * columns + job % columns;
  }

  // What every run keeps

  /** Each job started is under way, cut off or reported, and only one of these, once. */
  ghost predicate Conserved(s: State) {
    multiset(s.active) + multiset(s.cancelled) + multiset(s.reported) == multiset(Range(0, s.next))
  }

  ghost predicate TraceFits(s: State) {
    && (forall i :: 0 <= i < |s.trace| && s.trace[i].Completed? ==> i == |s.trace| - 1)
    && (s.completed <==> s.trace != [] && s.trace[|s.trace| - 1].Completed?)
  }

  ghost predicate Invariant(plan: Plan, s: State) {
    && Conserved(s)
    && TraceFits(s)
    && s.next <= JobCount(plan)
    && |s.active| + |s.cancelled| <= plan.maxConcurrency
    && (!s.stopped ==> s.cancelled == [])
    && (s.stopped ==> s.active == [])
    && (!s.begun ==> s.next == 0 && s.active == [] && (!s.stopped ==> !s.completed))
    && (s.begun && !s.stopped ==>
          && (s.next < JobCount(plan) ==> |s.active| == plan.maxConcurrency)
          && (s.completed <==> s.active == []))
    && (s.stopped && s.cancelled == [] ==> s.completed)
  }

  lemma FillKeepsInvariant(plan: Plan, s: State)
    requires ValidPlan(plan) && s.begun && s.next <= JobCount(plan)
    requires Conserved(s) && TraceFits(s)
    requires |s.active| + |s.cancelled| <= plan.maxConcurrency
    requires !s.stopped ==> s.cancelled == [] && !s.completed
    requires s.stopped ==> s.active == []
    ensures Invariant(plan, Fill(plan, s))
  {
    hide Conserved;
    if !s.stopped {
      StartingConserves(s, Reach(plan, s.next, |s.active|));
    }
    FinishConserves(s);
    FinishConserves(s.(next := Reach(plan, s.next, |s.active|), active := s.active + Range(s.next, Reach(plan, s.next, |s.active|))));
  }

  lemma FinishConserves(s: State)
    ensures Conserved(Finish(s)) <==> Conserved(s)
  {
  }

  lemma StartingConserves(s: State, reach: nat)
    requires Conserved(s) && s.next <= reach
    ensures Conserved(s.(next := reach, active := s.active + Range(s.next, reach)))
  {
    RangeGrows(s.next, reach);
    assert multiset(s.active + Range(s.next, reach)) == multiset(s.active) + multiset(Range(s.next, reach));
  }

  lemma ReportKeepsInvariant(plan: Plan, s: State, job: nat, open: bool)
    requires ValidPlan(plan) && Invariant(plan, s)
    ensures Invariant(plan, Step(plan, s, Report(job, open)))
  {
    hide Fill, Range, TargetOf, Without;
    if job in s.active {
      JobMoves(s.active, s.cancelled, s.reported, job);
      ActiveReports(plan, s, job, open);
    } else if job in s.cancelled {
      JobMoves(s.cancelled, s.active, s.reported, job);
      CancelledReports(plan, s, job, open);
    }
  }

  lemma CancelledReports(plan: Plan, s: State, job: nat, open: bool)
    requires ValidPlan(plan) && Invariant(plan, s) && job !in s.active && job in s.cancelled
    requires |Without(s.cancelled, job)| == |s.cancelled| - 1
    requires multiset(s.active) + multiset(Without(s.cancelled, job)) + multiset(s.reported + [job])
          == multiset(s.active) + multiset(s.cancelled) + multiset(s.reported)
    ensures Invariant(plan, Step(plan, s, Report(job, open)))
  {
  }

  lemma ActiveReports(plan: Plan, s: State, job: nat, open: bool)
    requires ValidPlan(plan) && Invariant(plan, s) && job in s.active
    requires |Without(s.active, job)| == |s.active| - 1
    requires multiset(Without(s.active, job)) + multiset(s.cancelled) + multiset(s.reported + [job])
          == multiset(s.active) + multiset(s.cancelled) + multiset(s.reported)
    ensures Invariant(plan, Step(plan, s, Report(job, open)))
  {
    hide Fill, Range, TargetOf, Without;
    var next := s.(
      active := Without(s.active, job),
      reported := s.reported + [job],
      trace := s.trace + Findings(plan, job, open && !s.stopped));
    assert Conserved(next);
    FillKeepsInvariant(plan, next);
  }

  lemma BeginKeepsInvariant(plan: Plan, s: State)
    requires ValidPlan(plan) && Invariant(plan, s)
    ensures Invariant(plan, Step(plan, s, Begin))
  {
    hide Fill, Range;
    if !s.begun {
      FillKeepsInvariant(plan, s.(begun := true));
    }
  }

  lemma StopKeepsInvariant(plan: Plan, s: State)
    requires Invariant(plan, s)
    ensures Invariant(plan, Step(plan, s, Stop))
  {
    hide Range;
    assert multiset(s.cancelled + s.active) == multiset(s.cancelled) + multiset(s.active);
  }

  lemma StepKeepsInvariant(plan: Plan, s: State, event: Event)
    requires ValidPlan(plan) && Invariant(plan, s)
    ensures Invariant(plan, Step(plan, s, event))
  {
    hide Invariant, Step;
    match event
    case Begin =>
      BeginKeepsInvariant(plan, s);
    case Report(job, open) =>
      ReportKeepsInvariant(plan, s, job, open);
    case Stop =>
      StopKeepsInvariant(plan, s);
  }

  lemma {:induction false} RunKeepsInvariant(plan: Plan, s: State, events: seq<Event>)
    requires ValidPlan(plan) && Invariant(plan, s)
    ensures Invariant(plan, Run(plan, s, events))
    decreases |events|
  {
    if events != [] {
      StepKeepsInvariant(plan, s, events[0]);
      RunKeepsInvariant(plan, Step(plan, s, events[0]), events[1..]);
    }
  }

  lemma Reachable(plan: Plan, events: seq<Event>)
    requires ValidPlan(plan)
    ensures Invariant(plan, Run(plan, Initial, events))
  {
    RunKeepsInvariant(plan, Initial, events);
  }

  /**
   * In every run the attempts started are those of the first jobs, each exactly once under way,
   * cut off or reported; no more than the allowed number is out at a time, and until a stop jobs
   * wait only while that many are.
   */
  lemma JobsAreConserved(plan: Plan, events: seq<Event>)
    requires ValidPlan(plan)
    ensures var s := Run(plan, Initial, events);
            && multiset(s.active) + multiset(s.cancelled) + multiset(s.reported) == multiset(Range(0, s.next))
            && s.next <= JobCount(plan)
            && |s.active| + |s.cancelled| <= plan.maxConcurrency
            && (s.begun && !s.stopped && s.next < JobCount(plan) ==> |s.active| == plan.maxConcurrency)
  {
    Reachable(plan, events);
  }

  /** A scan that is not stopped completes exactly when every pair has been dialled and has reported. */
  lemma CompletesWithLastReport(plan: Plan, events: seq<Event>)
    requires ValidPlan(plan)
    requires Begin in events && Stop !in events
    ensures var s := Run(plan, Initial, events);
            s.completed <==> multiset(s.reported) == multiset(Range(0, JobCount(plan)))
  {
    Reachable(plan, events);
    var s := Run(plan, Initial, events);
    BegunUnstopped(plan, Initial, events);
    if s.completed {
      assert multiset(s.active) == multiset{} && multiset(s.cancelled) == multiset{};
    } else {
      RangeCounts(0, JobCount(plan), s.active[0]);
      RangeCounts(0, s.next, s.active[0]);
      assert multiset(s.active)[s.active[0]] > 0;
      assert (multiset(s.active) + multiset(s.cancelled) + multiset(s.reported))[s.active[0]] == multiset(Range(0, s.next))[s.active[0]];
      assert multiset(s.reported)[s.active[0]] == 0;
    }
  }

  lemma {:induction false} BegunUnstopped(plan: Plan, s: State, events: seq<Event>)
    requires Stop !in events && !s.stopped
    ensures var after := Run(plan, s, events);
            !after.stopped && (after.begun <==> s.begun || Begin in events)
    decreases |events|
  {
    if events != [] {
      BegunUnstopped(plan, Step(plan, s, events[0]), events[1..]);
    }
  }

  /** Every pair of an address and a port is among the jobs of a completed scan, exactly once. */
  lemma EveryPairOnce(plan: Plan, events: seq<Event>, row: nat, column: nat)
    requires ValidPlan(plan) && Begin in events && Stop !in events
    requires Run(plan, Initial, events).completed
    requires row < |plan.addresses| && column < |plan.ports|
    ensures var job := row * |plan.ports| + column;
            && job < JobCount(plan)
            && multiset(Run(plan, Initial, events).reported)[job] == 1
            && TargetOf(plan, job) == Target(plan.addresses[row], plan.ports[column])
  {
    var job := row * |plan.ports| + column;
    JobsArePairs(plan, row, column, job);
    CompletesWithLastReport(plan, events);
    RangeCounts(0, JobCount(plan), job);
  }

  // What the observer sees

  /** The targets of the open ones among these jobs. */
  function Openings(plan: Plan, open: nat -> bool, jobs: seq<nat>): seq<Signal> {
    if jobs == [] then []
    else Openings(plan, open, jobs[..|jobs| - 1])
         + Findings(plan, jobs[|jobs| - 1], open(jobs[|jobs| - 1]))
  }

  ghost predicate Honest(open: nat -> bool, events: seq<Event>) {
    forall event :: event in events && event.Report? ==> event.open == open(event.job)
  }

  ghost predicate TellsOpenings(plan: Plan, open: nat -> bool, s: State) {
    s.trace == Openings(plan, open, s.reported) + if s.completed then [Completed] else []
  }

  lemma StepTells(plan: Plan, open: nat -> bool, s: State, event: Event)
    requires ValidPlan(plan) && Invariant(plan, s) && !s.stopped && TellsOpenings(plan, open, s)
    requires !event.Stop? && (event.Report? ==> event.open == open(event.job))
    ensures TellsOpenings(plan, open, Step(plan, s, event))
  {
    hide Range, TargetOf, Without, Conserved;
    if event.Report? {
      assert (s.reported + [event.job])[..|s.reported|] == s.reported;
    }
  }

  lemma {:induction false} RunTells(plan: Plan, open: nat -> bool, s: State, events: seq<Event>)
    requires ValidPlan(plan) && Invariant(plan, s) && !s.stopped && TellsOpenings(plan, open, s)
    requires Stop !in events && Honest(open, events)
    ensures TellsOpenings(plan, open, Run(plan, s, events))
    decreases |events|
  {
    if events != [] {
      StepTells(plan, open, s, events[0]);
      StepKeepsInvariant(plan, s, events[0]);
      BegunUnstopped(plan, s, [events[0]]);
      RunTells(plan, open, Step(plan, s, events[0]), events[1..]);
    }
  }

  /** An unstopped scan tells of exactly the open targets, as they report, and completes once. */
  lemma TellsExactlyTheOpen(plan: Plan, open: nat -> bool, events: seq<Event>)
    requires ValidPlan(plan) && Stop !in events && Honest(open, events)
    ensures var s := Run(plan, Initial, events);
            s.trace == Openings(plan, open, s.reported) + if s.completed then [Completed] else []
  {
    RunTells(plan, open, Initial, events);
  }

  // What is told, by the reports as they come

  /** The jobs under way that report an open port, in the order of their reports. */
  function OpenReports(plan: Plan, s: State, events: seq<Event>): seq<nat>
    decreases |events|
  {
    if events == [] then []
    else
      (if events[0].Report? && events[0].job in s.active && events[0].open then [events[0].job] else [])
      + OpenReports(plan, Step(plan, s, events[0]), events[1..])
  }

  /** The job is that of the row's address on the column's port. */
  predicate Dials(plan: Plan, job: nat, target: Target) {
    && |plan.ports| > 0 && job / |plan.ports| < |plan.addresses|
    && target == Target(plan.addresses[job / |plan.ports|], plan.ports[job % |plan.ports|])
  }

  /** One by one these signals tell of the targets of these jobs. */
  ghost predicate TellsOf(plan: Plan, told: seq<Signal>, jobs: seq<nat>) {
    |told| == |jobs| && forall i :: 0 <= i < |jobs| ==> told[i].Found? && Dials(plan, jobs[i], told[i].target)
  }

  lemma ActiveIsJob(plan: Plan, s: State, job: nat)
    requires Invariant(plan, s) && job in s.active
    ensures job < JobCount(plan)
  {
    RangeCounts(0, s.next, job);
    assert multiset(s.active)[job] > 0;
    assert (multiset(s.active) + multiset(s.cancelled) + multiset(s.reported))[job] == multiset(Range(0, s.next))[job];
  }

  lemma FillTells(plan: Plan, s: State)
    requires !s.stopped && !s.completed
    ensures var after := Fill(plan, s);
            !after.stopped && after.trace == s.trace + if after.completed then [Completed] else []
  {
  }

  lemma OneReport(plan: Plan, s: State, event: Event) returns (told: seq<Signal>)
    requires ValidPlan(plan) && Invariant(plan, s) && !s.stopped && !s.completed && !event.Stop?
    ensures var after := Step(plan, s, event);
            && !after.stopped
            && after.trace == s.trace + told + if after.completed then [Completed] else []
    ensures TellsOf(plan, told, if event.Report? && event.job in s.active && event.open then [event.job] else [])
  {
    hide Fill, Range, Without, TargetOf;
    told := [];
    match event
    case Begin =>
      FillTells(plan, s.(begun := true));
    case Report(job, open) =>
      if job in s.active {
        ActiveIsJob(plan, s, job);
        told := Findings(plan, job, open);
        FindingTells(plan, job);
        FillTells(plan, s.(active := Without(s.active, job), reported := s.reported + [job], trace := s.trace + told));
      } else if job in s.cancelled {
        FillTells(plan, s.(cancelled := Without(s.cancelled, job), reported := s.reported + [job]));
      }
  }

  lemma FindingTells(plan: Plan, job: nat)
    requires job < JobCount(plan)
    ensures TellsOf(plan, Findings(plan, job, true), [job])
  {
    QuotientInRange(job, |plan.addresses|, |plan.ports|);
  }

  lemma {:induction false} CompletedReportsNothing(plan: Plan, s: State, events: seq<Event>)
    requires ValidPlan(plan) && Invariant(plan, s) && s.completed && s.begun && !s.stopped && Stop !in events
    ensures OpenReports(plan, s, events) == [] && Run(plan, s, events).completed && Run(plan, s, events).trace == s.trace
    decreases |events|
  {
    hide Range, Without, Fill;
    if events != [] {
      assert s.active == [] && s.cancelled == [];
      assert Step(plan, s, events[0]) == s;
      CompletedReportsNothing(plan, s, events[1..]);
    }
  }

  lemma TellsOfAppend(plan: Plan, first: seq<Signal>, front: seq<nat>, second: seq<Signal>, back: seq<nat>)
    requires TellsOf(plan, first, front) && TellsOf(plan, second, back)
    ensures TellsOf(plan, first + second, front + back)
  {
  }

  lemma {:induction false} ReportsAreTold(plan: Plan, s: State, events: seq<Event>) returns (told: seq<Signal>)
    requires ValidPlan(plan) && Invariant(plan, s) && !s.stopped && !s.completed && Stop !in events
    ensures TellsOf(plan, told, OpenReports(plan, s, events))
    ensures var after := Run(plan, s, events); after.trace == s.trace + told + if after.completed then [Completed] else []
    decreases |events|
  {
    hide Step, Invariant, TellsOf;
    if events == [] {
      NothingTold(plan);
      told := [];
    } else {
      var event, rest := events[0], events[1..];
      var next := Step(plan, s, event);
      var first := OneReport(plan, s, event);
      StepKeepsInvariant(plan, s, event);
      var reports := if event.Report? && event.job in s.active && event.open then [event.job] else [];
      if next.completed {
        CompletedHasBegun(plan, s, event);
        CompletedReportsNothing(plan, next, rest);
        assert reports + [] == reports;
        told := first;
      } else {
        var second := ReportsAreTold(plan, next, rest);
        TellsOfAppend(plan, first, reports, second, OpenReports(plan, next, rest));
        told := first + second;
        assert s.trace + first + second == s.trace + (first + second);
      }
    }
  }

  lemma NothingTold(plan: Plan)
    ensures TellsOf(plan, [], [])
  {
  }

  lemma CompletedHasBegun(plan: Plan, s: State, event: Event)
    requires Invariant(plan, s) && !s.stopped && !s.completed && !event.Stop? && Step(plan, s, event).completed
    ensures Step(plan, s, event).begun
  {
    hide Range, Without;
  }

  /**
   * In a run that is not stopped what is told are, one by one and in the order of the reports, the
   * addresses and ports of the jobs reported open, and then the completion.
   */
  lemma TellsEachOpenReport(plan: Plan, events: seq<Event>)
    requires ValidPlan(plan) && Stop !in events
    ensures var s := Run(plan, Initial, events);
            var last := if s.completed then [Completed] else [];
            && |s.trace| >= |last| && s.trace[|s.trace| - |last|..] == last
            && TellsOf(plan, s.trace[..|s.trace| - |last|], OpenReports(plan, Initial, events))
  {
    hide Step, TellsOf, OpenReports;
    var told := ReportsAreTold(plan, Initial, events);
    var s := Run(plan, Initial, events);
    var last := if s.completed then [Completed] else [];
    assert [] + told + last == told + last;
    assert (told + last)[..|told|] == told;
  }

  /** A target is told of exactly when a job that dials it has been reported open. */
  lemma TargetIsToldExactly(plan: Plan, events: seq<Event>, target: Target)
    requires ValidPlan(plan) && Stop !in events
    ensures Found(target) in Run(plan, Initial, events).trace <==>
              exists job :: job in OpenReports(plan, Initial, events) && Dials(plan, job, target)
  {
    hide Step, OpenReports, Dials;
    TellsEachOpenReport(plan, events);
    var s, jobs := Run(plan, Initial, events), OpenReports(plan, Initial, events);
    var last := if s.completed then [Completed] else [];
    var told := s.trace[..|s.trace| - |last|];
    assert s.trace == told + last;
    if Found(target) in s.trace {
      var i :| 0 <= i < |told| && told[i] == Found(target);
      assert jobs[i] in jobs && Dials(plan, jobs[i], target);
    }
    if job :| job in jobs && Dials(plan, job, target) {
      var i :| 0 <= i < |jobs| && jobs[i] == job;
      OneTarget(plan, job, target, told[i].target);
    }
  }

  lemma OneTarget(plan: Plan, job: nat, one: Target, other: Target)
    requires Dials(plan, job, one) && Dials(plan, job, other)
    ensures one == other
  {
  }

  /** Nothing is ever told behind the completion, and after a stop only the completion is. */
  lemma {:induction false} QuietAfterStop(plan: Plan, s: State, events: seq<Event>)
    requires ValidPlan(plan) && Invariant(plan, s) && (s.stopped || s.completed)
    ensures var after := Run(plan, s, events);
            after.trace == s.trace || (!s.completed && after.trace == s.trace + [Completed])
    decreases |events|
  {
    if events != [] {
      StepKeepsInvariant(plan, s, events[0]);
      QuietStep(plan, s, events[0]);
      QuietAfterStop(plan, Step(plan, s, events[0]), events[1..]);
    }
  }

  lemma QuietStep(plan: Plan, s: State, event: Event)
    requires ValidPlan(plan) && Invariant(plan, s) && (s.stopped || s.completed)
    ensures var after := Step(plan, s, event);
            && (after.stopped || after.completed)
            && (s.completed ==> after.completed)
            && if after.completed && !s.completed then after.trace == s.trace + [Completed] else after.trace == s.trace
  {
  }

  /**
   * The first stop completes the scan exactly when nothing is under way, and otherwise the next
   * report does; another stop changes nothing.
   */
  lemma StopCompletes(plan: Plan, events: seq<Event>, job: nat, open: bool)
    requires ValidPlan(plan)
    ensures var s := Run(plan, Initial, events);
            var after := Step(plan, s, Stop);
            && (if s.stopped then after == s else after.completed <==> s.completed || s.active == [])
            && (job in after.cancelled ==> Step(plan, after, Report(job, open)).completed)
            && after.trace == s.trace + if after.completed && !s.completed then [Completed] else []
  {
    hide Range, TargetOf, Without, Conserved;
    Reachable(plan, events);
  }
}
