/**
 * The Modbus discovery as the program keeps it: identifiers under way, a queue of pending jobs and
 * a few flags. Every callback moves it along the transition system of `ModbusPump`.
 */
module ModbusDiscoverySessionModel {
  import opened Jobs
  import opened ModbusPump

  lemma NothingPending(s: State)
    ensures Pending(s) == [] <==> s.stopped || s.started >= |s.jobs|
  {
  }

  /** Jobs are numbered as they are made, and an identifier goes by the number of its job. */
  class ModbusDiscoverySession {
    const options: Options

    var begun: bool
    var subscribed: bool
    var running: bool
    var active: seq<nat>
    var pending: seq<nat>
    var upstreamCompleted: bool
    var stopped: bool
    var completed: bool

    // All jobs made, and what the observer has seen
    var jobs: seq<Job>
    var trace: seq<Signal>

    ghost var pump: State

    ghost predicate Agrees()
      reads this
    {
      && pump.begun == begun && pump.subscribed == subscribed && pump.running == running
      && pump.upstreamCompleted == upstreamCompleted && pump.stopped == stopped && pump.completed == completed
      && pump.jobs == jobs && pump.active == active && pump.trace == trace
      && pending == Pending(pump)
      && pump.started <= |jobs|
    }

    ghost predicate Valid()
      reads this
    {
      ValidOptions(options) && Agrees() && Invariant(options, pump)
    }

    constructor (options: Options)
      requires ValidOptions(options)
      ensures Valid() && pump == Initial && this.options == options
    {
      this.options := options;
      begun, subscribed, running, upstreamCompleted, stopped, completed := false, false, true, false, false, false;
      active, pending, jobs, trace := [], [], [], [];
      pump := Initial;
    }

    method StartInLoop()
      requires Valid() && !begun
      modifies this
      ensures Valid() && pump == Step(options, old(pump), ModbusPump.Start)
    {
      StepKeepsInvariant(options, pump, ModbusPump.Start);
      begun := true;
      if stopped {
        upstreamCompleted := true;
        pump := pump.(begun := true, upstreamCompleted := true);
        Finish();
        return;
      }
      subscribed := true;
      pump := pump.(begun := true, subscribed := true);
    }

    /** An open port the port scan has found. */
    method Enqueue(candidate: OpenPort)
      requires Valid() && subscribed
      modifies this
      ensures Valid() && pump == Step(options, old(pump), Candidate(candidate))
    {
      hide Invariant, ModbusPump.Fill, Reach;
      StepKeepsInvariant(options, pump, Candidate(candidate));
      if stopped {
        return;
      }
      ghost var before := pump;
      AddJobs(candidate);
      pump := pump.(jobs := jobs);
      Fill();
    }

    method AddJobs(candidate: OpenPort)
      requires Agrees() && !stopped
      modifies `pending, `jobs
      ensures jobs == old(jobs) + JobsFor(options, candidate)
      ensures pending == Range(pump.started, |jobs|)
    {
      for i := 0 to |options.unitIds|
        invariant |jobs| == |old(jobs)| + i
        invariant jobs == old(jobs) + JobsFor(options, candidate)[..i]
        invariant pending == Range(pump.started, |jobs|)
      {
        pending := pending + [|jobs|];
        jobs := jobs + [Job(candidate, options.unitIds[i])];
        assert Range(pump.started, |jobs|) == Range(pump.started, |jobs| - 1) + [|jobs| - 1];
      }
      assert JobsFor(options, candidate)[..|options.unitIds|] == JobsFor(options, candidate);
    }

    method Fill()
      requires Agrees() && Invariant(options, ModbusPump.Fill(options, pump))
      requires ValidOptions(options)
      modifies this
      ensures Valid() && pump == ModbusPump.Fill(options, old(pump))
    {
      hide Invariant, Conserved, Pending;
      if completed {
        return;
      }
      ghost var before := pump;
      while !stopped && |active| < options.maxConcurrency && pending != []
        invariant Agrees() && before.started <= pump.started
        invariant pump == before.(started := pump.started, active := before.active + Range(before.started, pump.started))
        invariant pump.started <= |pump.jobs|
        invariant before.stopped || |before.active| >= options.maxConcurrency ==> pump.started == before.started
        invariant |active| <= options.maxConcurrency || pump.started == before.started
        decreases |pending|
      {
        ghost var started := pump.started;
        StartFirst();
        assert Range(before.started, started + 1) == Range(before.started, started) + [started];
      }
      NothingPending(pump);
      assert pump == Launch(options, before);
      MaybeComplete();
    }

    method StartFirst()
      requires Agrees() && !stopped && pending != []
      modifies `pending, `active, `pump
      ensures Agrees() && |pending| == |old(pending)| - 1
      ensures pump == old(pump).(started := old(pump.started) + 1, active := old(pump.active) + [old(pump.started)])
    {
      var job := pending[0];
      pending := pending[1..];
      active := active + [job];
      pump := pump.(started := pump.started + 1, active := active);
    }

    /** The result of an identifier under way; one that has been cut off has none. */
    method OneFinished(identifier: nat, identified: bool)
      requires Valid() && identifier in active
      modifies this
      ensures Valid() && pump == Step(options, old(pump), Report(identifier, identified))
    {
      hide Invariant, ModbusPump.Fill, Reach, Without, Range;
      StepKeepsInvariant(options, pump, Report(identifier, identified));
      pump := Reported(pump, identifier, identified);
      active := Erase(active, identifier);
      if !stopped && identified {
        trace := trace + [Identified(identifier)];
      }
      Fill();
    }

    method OnUpstreamCompleted()
      requires Valid() && subscribed
      modifies this
      ensures Valid() && pump == Step(options, old(pump), ModbusPump.UpstreamCompleted)
    {
      hide Invariant;
      StepKeepsInvariant(options, pump, ModbusPump.UpstreamCompleted);
      upstreamCompleted := true;
      pump := pump.(upstreamCompleted := true);
      MaybeComplete();
    }

    method Stop()
      requires Valid()
      modifies this
      ensures Valid() && pump == Step(options, old(pump), ModbusPump.Stop)
    {
      hide Invariant;
      StepKeepsInvariant(options, pump, ModbusPump.Stop);
      if stopped {
        return;
      }
      stopped := true;
      pending := [];
      var operations := active;
      active := [];
      pump := Cut(pump);
      if operations == [] {
        MaybeComplete();
      }
    }

    method MaybeComplete()
      requires ValidOptions(options) && Agrees() && Invariant(options, ModbusPump.MaybeComplete(pump))
      modifies this
      ensures Valid() && pump == ModbusPump.MaybeComplete(old(pump))
    {
      hide Invariant;
      if completed || !upstreamCompleted || pending != [] || active != [] {
        return;
      }
      Finish();
    }

    method Finish()
      requires ValidOptions(options) && Agrees() && Invariant(options, ModbusPump.Finish(pump))
      modifies this
      ensures Valid() && pump == ModbusPump.Finish(old(pump))
    {
      hide Invariant;
      if completed {
        return;
      }
      completed := true;
      subscribed := false;
      running := false;
      trace := trace + [Completed];
      pump := ModbusPump.Finish(pump);
    }

    method Fail()
      requires Valid() && subscribed
      modifies this
      ensures Valid() && pump == Step(options, old(pump), UpstreamFailed)
    {
      hide Conserved;
      StepKeepsInvariant(options, pump, UpstreamFailed);
      if completed {
        return;
      }
      completed := true;
      stopped := true;
      pending := [];
      active := [];
      subscribed := false;
      running := false;
      trace := trace + [Errored];
      pump := Step(options, pump, UpstreamFailed);
    }
  }
}
