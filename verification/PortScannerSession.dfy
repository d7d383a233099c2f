/**
 * The port scan as the program keeps it: a list of active connectors, the next job, and two flags.
 * Every callback moves it along the transition system of `PortScan`.
 */
module PortScannerSessionModel {
  import opened Arithmetic
  import opened Jobs
  import opened PortScan

  /** One connection attempt; whatever happens to it, it reports once. */
  class Connector {
    const job: nat
    var finished: bool
    /** What it has reported so far. */
    var results: seq<bool>

    ghost predicate Valid()
      reads this
    {
      |results| == if finished then 1 else 0
    }

    constructor (job: nat)
      ensures Valid() && !finished && this.job == job
    {
      this.job := job;
      finished, results := false, [];
    }

    /** The start task; the socket may be refused. */
    method StartInLoop(socketOpens: bool) returns (dials: bool)
      requires Valid()
      modifies this
      ensures Valid() && (old(finished) ==> !dials && results == old(results))
      ensures !old(finished) ==> if socketOpens then dials && !finished else results == [false]
    {
      if finished {
        return false;
      }
      if !socketOpens {
        Finish(false);
        return false;
      }
      return true;
    }

    method Cancel()
      requires Valid()
      modifies this
      ensures Valid() && finished && (old(finished) ==> results == old(results))
    {
      Finish(false);
    }

    method OnConnection(connected: bool)
      requires Valid()
      modifies this
      ensures Valid() && finished && results == if old(finished) then old(results) else [connected]
    {
      Finish(connected);
    }

    method Finish(open: bool)
      requires Valid()
      modifies this
      ensures Valid() && finished && results == if old(finished) then old(results) else [open]
    {
      if finished {
        return;
      }
      finished := true;
      results := results + [open];
    }
  }

  /** Connectors are told apart by the job they dial. */
  class PortScannerSession {
    const plan: Plan

    var begun: bool
    var active: seq<nat>
    var nextJob: nat
    var stopped: bool
    var completed: bool

    // What has been dialled and what the observer has seen
    var dialled: seq<Target>
    var trace: seq<Signal>

    ghost var scan: State

    ghost predicate Valid()
      reads this
    {
      && ValidPlan(plan)
      && Invariant(plan, scan)
      && scan.begun == begun && scan.active == active && scan.next == nextJob
      && scan.stopped == stopped && scan.completed == completed && scan.trace == trace
      && DialsFit()
    }

    /** The first jobs have been dialled, in order. */
    ghost predicate DialsFit()
      reads `dialled, `nextJob
    {
      && nextJob <= JobCount(plan)
      && |dialled| == nextJob
      && forall job :: 0 <= job < nextJob ==> dialled[job] == TargetOf(plan, job)
    }

    constructor (plan: Plan)
      requires ValidPlan(plan)
      ensures Valid() && scan == Initial && this.plan == plan
    {
      this.plan := plan;
      begun, active, nextJob, stopped, completed := false, [], 0, false, false;
      dialled, trace := [], [];
      scan := Initial;
    }

    /** The start task. */
    method Begin()
      requires Valid() && !begun
      modifies this
      ensures Valid() && scan == Step(plan, old(scan), PortScan.Begin)
    {
      ghost var before := scan;
      StepKeepsInvariant(plan, before, PortScan.Begin);
      begun := true;
      scan := scan.(begun := true);
      Fill();
    }

    method Fill()
      requires ValidPlan(plan) && Agrees() && DialsFit() && Invariant(plan, PortScan.Fill(plan, scan))
      modifies this
      ensures Valid() && scan == PortScan.Fill(plan, old(scan))
    {
      hide Invariant, Conserved, TraceFits, JobCount, TargetOf;
      if stopped {
        Finish();
        return;
      }
      var jobCount := JobCount(plan);
      ghost var first, busy := nextJob, active;
      while |active| < plan.maxConcurrency && nextJob < jobCount
        invariant DialsFit() && first <= nextJob && busy == old(active)
        invariant active == busy + Range(first, nextJob)
        invariant |busy| >= plan.maxConcurrency ==> nextJob == first
        invariant |active| <= plan.maxConcurrency || nextJob == first
        invariant begun == old(begun) && stopped == old(stopped) && completed == old(completed)
        invariant trace == old(trace) && scan == old(scan)
        decreases jobCount - nextJob
      {
        StartNext();
        assert Range(first, nextJob) == Range(first, nextJob - 1) + [nextJob - 1];
      }
      assert nextJob == Reach(plan, first, |busy|);
      scan := scan.(next := nextJob, active := active);
      if active == [] && nextJob >= jobCount {
        Finish();
      }
    }

    /** Dials the next job's address and port. */
    method StartNext()
      requires DialsFit() && nextJob < JobCount(plan)
      modifies `active, `nextJob, `dialled
      ensures DialsFit() && nextJob == old(nextJob) + 1 && active == old(active) + [old(nextJob)]
    {
      var job := nextJob;
      nextJob := nextJob + 1;
      QuotientInRange(job, |plan.addresses|, |plan.ports|);
      var address := plan.addresses[job / |plan.ports|];
      var port := plan.ports[job % |plan.ports|];
      active := active + [job];
      dialled := dialled + [Target(address, port)];
    }

    ghost predicate Agrees()
      reads this
    {
      && scan.begun == begun && scan.active == active && scan.next == nextJob
      && scan.stopped == stopped && scan.completed == completed && scan.trace == trace
    }

    /** The callback of a connector, cut off or not. */
    method OnResult(connector: nat, open: bool)
      requires Valid() && (connector in active || connector in scan.cancelled)
      modifies this
      ensures Valid() && scan == Step(plan, old(scan), Report(connector, open))
    {
      hide Conserved, TraceFits, TargetOf, Without, Range, PortScan.Fill;
      ghost var before := scan;
      StepKeepsInvariant(plan, before, Report(connector, open));
      if connector in active {
        ActiveIsStarted(plan, before, connector);
        active := Erase(active, connector);
        scan := scan.(active := active, reported := scan.reported + [connector]);
      } else {
        scan := scan.(cancelled := Without(scan.cancelled, connector), reported := scan.reported + [connector]);
      }
      if !stopped && open {
        trace := trace + [Found(TargetOf(plan, connector))];
        scan := scan.(trace := trace);
      }
      assert connector in before.active ==> trace == before.trace + Findings(plan, connector, open && !stopped);
      assert connector !in before.active ==> stopped;
      Fill();
    }

    method Stop()
      requires Valid()
      modifies this
      ensures Valid() && scan == Step(plan, old(scan), PortScan.Stop)
    {
      if stopped {
        return;
      }
      ghost var before := scan;
      StepKeepsInvariant(plan, before, PortScan.Stop);
      stopped := true;
      var operations := active;
      active := [];
      scan := scan.(stopped := true, cancelled := scan.cancelled + operations, active := []);
      if operations == [] {
        Finish();
      }
    }

    method Finish()
      requires ValidPlan(plan) && Agrees() && DialsFit() && Invariant(plan, PortScan.Finish(scan))
      modifies `completed, `trace, `scan
      ensures Valid() && scan == PortScan.Finish(old(scan))
    {
      if completed {
        return;
      }
      completed := true;
      trace := trace + [Completed];
      scan := PortScan.Finish(scan);
    }
  }

  /** A job under way has been started, so it has a target. */
  lemma ActiveIsStarted(plan: Plan, s: State, job: nat)
    requires Invariant(plan, s) && job in s.active
    ensures job < s.next <= JobCount(plan) && !s.stopped
  {
    RangeCounts(0, s.next, job);
    assert multiset(s.active)[job] > 0;
    assert (multiset(s.active) + multiset(s.cancelled) + multiset(s.reported))[job] == multiset(Range(0, s.next))[job];
  }
}
