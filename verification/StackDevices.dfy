/** Which devices the discovery scans, over which sessions, and how far a scan of it may read. */
module StackDevices {
  import opened Bytes
  import opened DiscoveryStack
  import opened DiscoverySteps
  import opened Jobs
  import M = ModbusPump
  import P = ScanProperties
  import R = DiscoveryRun
  import S = ScanSpec

  /** The jobs told as identified, in the order in which they were. */
  function Identified(signals: seq<M.Signal>): seq<nat> {
    if signals == [] then []
    else
      var earlier, last := Identified(signals[..|signals| - 1]), signals[|signals| - 1];
      if last.Identified? then earlier + [last.job] else earlier
  }

  /** The device is the job's: its open port, and the unit id it was tried on. */
  predicate OfJob(pump: M.State, job: nat, device: Device) {
    && job < |pump.jobs|
    && device.endpoint.address == pump.jobs[job].target.address
    && device.endpoint.port == pump.jobs[job].target.port
    && device.unit == pump.jobs[job].unit
  }

  ghost predicate DevicesFit(net: Net, heard: seq<M.Signal>) {
    var found := Identified(heard);
    && |net.works| <= |found|
    && (!R.Over(net.run) ==> |net.works| == |found|)
    && forall i :: 0 <= i < |net.works| ==> OfJob(net.pump, found[i], net.works[i].device)
  }

  // The jobs the Modbus discovery tells of

  ghost predicate TellsOfJobs(pump: M.State) {
    forall k :: 0 <= k < |pump.trace| && pump.trace[k].Identified? ==> pump.trace[k].job < |pump.jobs|
  }

  lemma FillTellsOfJobs(options: M.Options, pump: M.State)
    requires TellsOfJobs(pump)
    ensures TellsOfJobs(M.Fill(options, pump)) && M.Fill(options, pump).jobs == pump.jobs
  {
    hide M.Reach;
  }

  lemma ActiveIsJob(options: M.Options, pump: M.State, job: nat)
    requires M.Invariant(options, pump) && job in pump.active
    ensures job < |pump.jobs|
  {
    assert multiset(pump.active)[job] > 0;
    assert multiset(Range(0, pump.started))[job] > 0;
  }

  lemma ReportTellsOfJobs(options: M.Options, pump: M.State, job: nat, identified: bool)
    requires TellsOfJobs(pump) && job < |pump.jobs|
    ensures var after := M.Fill(options, M.Reported(pump, job, identified)); TellsOfJobs(after) && after.jobs == pump.jobs
  {
    FillTellsOfJobs(options, M.Reported(pump, job, identified));
    hide M.Fill, Without;
  }

  lemma JobsGrow(options: M.Options, pump: M.State, event: M.Event)
    requires M.Invariant(options, pump) && TellsOfJobs(pump)
    ensures var after := M.Step(options, pump, event); TellsOfJobs(after) && pump.jobs <= after.jobs
  {
    hide M.Invariant, M.Fill, M.JobsFor, M.Reported, M.Pending;
    match event
    case Candidate(target) =>
      FillTellsOfJobs(options, pump.(jobs := pump.jobs + M.JobsFor(options, target)));
    case Report(job, identified) =>
      if job in pump.active {
        ActiveIsJob(options, pump, job);
        ReportTellsOfJobs(options, pump, job, identified);
      }
    case _ =>
  }

  // What leaves the devices alone

  ghost predicate SameDevices(before: Net, after: Net) {
    && after.pump == before.pump && |after.works| == |before.works|
    && (forall i :: 0 <= i < |before.works| ==> after.works[i].device == before.works[i].device)
    && R.Invariant(after.run) && (R.Over(before.run) ==> R.Over(after.run))
  }

  lemma SameDevicesFit(before: Net, after: Net, heard: seq<M.Signal>)
    requires SameDevices(before, after) && DevicesFit(before, heard)
    ensures DevicesFit(after, heard)
  {
    hide R.Over, R.Invariant, OfJob;
    forall i | 0 <= i < |after.works|
      ensures OfJob(after.pump, Identified(heard)[i], after.works[i].device)
    {
      assert OfJob(before.pump, Identified(heard)[i], before.works[i].device);
    }
  }

  lemma TellKeepsDevices(options: Options, net: Net, event: R.Event)
    requires R.Invariant(net.run)
    ensures SameDevices(net, Tell(options, net, event))
  {
    hide R.Step, R.Invariant, S.Step;
    R.StepKeepsInvariant(net.run, event, WorldOf(net.works));
    StepEndings(net.run, event, WorldOf(net.works));
  }

  lemma {:induction false} PassingKeepsDevices(options: Options, net: Net, i: nat, emissions: seq<S.Emission>)
    requires R.Invariant(net.run)
    ensures SameDevices(net, PassAll(options, net, i, emissions))
    decreases |emissions|
  {
    hide R.Invariant, Tell, R.Over;
    if emissions != [] {
      TellKeepsDevices(options, net, EventOf(i, emissions[0]));
      PassingKeepsDevices(options, Tell(options, net, EventOf(i, emissions[0])), i, emissions[1..]);
    }
  }

  lemma MoveKeepsDevices(options: Options, net: Net, i: nat, event: S.Event)
    requires R.Invariant(net.run) && i < |net.works|
    ensures SameDevices(net, MoveScan(options, net, i, event))
  {
    hide R.Invariant, PassAll, R.Over, S.Step;
    var work := Moved(options, net.works[i], event);
    PassingKeepsDevices(options, net.(works := net.works[i := work]), i, Since(net.works[i].scan.trace, work.scan.trace));
  }

  // What adds a device

  lemma CandidateMoves(run: R.State, opens: bool, world: R.World)
    requires R.Invariant(run) && (run.failing || run.subscribed)
    ensures !R.Over(R.Step(run, R.Candidate(opens), world)) ==> Opens(run, R.Candidate(opens))
  {
    StepEndings(run, R.Candidate(opens), world);
    hide R.Step, R.Invariant;
  }

  lemma HearFits(options: Options, net: Net, heard: seq<M.Signal>, opens: bool, signal: M.Signal)
    requires R.Invariant(net.run) && (net.run.failing || net.run.subscribed) && DevicesFit(net, heard)
    requires signal.Identified? ==> signal.job < |net.pump.jobs|
    ensures DevicesFit(Hear(options, net, opens, signal), heard + [signal])
  {
    hide R.Step, R.Invariant, Cancelled, R.Over, OfJob;
    var event := match signal
                 case Identified(job) => R.Candidate(opens)
                 case Completed => R.UpstreamCompleted
                 case Errored => R.UpstreamFailed;
    var told := Tell(options, net, event);
    TellKeepsDevices(options, net, event);
    SameDevicesFit(net, told, heard);
    assert (heard + [signal])[..|heard|] == heard;
    if signal.Identified? {
      CandidateMoves(net.run, opens, WorldOf(net.works));
      DeviceIsOfJob(net.pump, signal.job);
      OpensWhileOn(net.run, opens);
    }
  }

  lemma OpensWhileOn(run: R.State, opens: bool)
    ensures Opens(run, R.Candidate(opens)) ==> !R.Over(run)
  {
  }

  lemma DeviceIsOfJob(pump: M.State, job: nat)
    requires job < |pump.jobs|
    ensures OfJob(pump, job, DeviceOf(pump, job))
  {
  }

  lemma {:induction false} HearAllFits(options: Options, net: Net, heard: seq<M.Signal>, opens: bool, signals: seq<M.Signal>)
    requires ValidOptions(options) && Joined(options, net, heard) && TellsOfJobs(net.pump) && DevicesFit(net, heard)
    requires heard + signals == net.pump.trace && net.pump.begun
    ensures DevicesFit(HearAll(options, net, opens, signals), net.pump.trace)
    decreases |signals|
  {
    hide R.Invariant, M.Invariant, R.Over, OfJob, DevicesFit, WorkFits, ThingFits, UpstreamFits, Hear;
    if signals == [] {
      assert heard + [] == heard;
    } else {
      var next := heard + [signals[0]];
      assert heard + signals == next + signals[1..];
      assert net.pump.trace[|heard|] == signals[0];
      StillListens(options, net, heard, signals[0]);
      HearFits(options, net, heard, opens, signals[0]);
      HearKeeps(options, net, heard, opens, signals[0]);
      HearLeavesPump(options, net, opens, signals[0]);
      HearAllFits(options, Hear(options, net, opens, signals[0]), next, opens, signals[1..]);
    }
  }

  lemma MoreJobsFit(net: Net, pump: M.State, heard: seq<M.Signal>)
    requires DevicesFit(net, heard) && net.pump.jobs <= pump.jobs
    ensures DevicesFit(net.(pump := pump), heard)
  {
    hide R.Over;
    forall i | 0 <= i < |net.works|
      ensures OfJob(pump, Identified(heard)[i], net.works[i].device)
    {
      assert OfJob(net.pump, Identified(heard)[i], net.works[i].device);
    }
  }

  lemma PumpFits(options: Options, net: Net, event: M.Event, opens: bool)
    requires ValidOptions(options) && Joined(options, net, net.pump.trace) && TellsOfJobs(net.pump) && DevicesFit(net, net.pump.trace)
    ensures var after := Step(options, net, Pump(event, opens)); TellsOfJobs(after.pump) && DevicesFit(after, after.pump.trace)
  {
    hide R.Invariant, M.Invariant, M.Step, DevicesFit, WorkFits, ThingFits, TellsOfJobs, HearAll;
    if !event.Start? || net.run.listened {
      var pump := M.Step(options.modbus, net.pump, event);
      M.StepKeepsInvariant(options.modbus, net.pump, event);
      PumpGrows(options.modbus, net.pump, event);
      JobsGrow(options.modbus, net.pump, event);
      MoreJobsFit(net, pump, net.pump.trace);
      var since := Since(net.pump.trace, pump.trace);
      assert net.pump.trace + since == pump.trace;
      var heard := net.(pump := pump);
      PassingPumpOn(options, heard, opens, since);
      if !net.pump.begun && !event.Start? {
        UnbegunSaysNothing(options.modbus, net.pump, event);
        SilenceIsNotHeard(options, heard, opens);
      } else {
        HearAllFits(options, heard, net.pump.trace, opens, since);
      }
    }
  }

  lemma PassingPumpOn(options: Options, net: Net, opens: bool, signals: seq<M.Signal>)
    requires R.Invariant(net.run)
    ensures HearAll(options, net, opens, signals).pump == net.pump
  {
    HearAllOnward(options, net, opens, signals);
  }

  lemma StepFits(options: Options, net: Net, move: Move)
    requires ValidOptions(options) && Joined(options, net, net.pump.trace) && TellsOfJobs(net.pump) && DevicesFit(net, net.pump.trace)
    ensures var after := Step(options, net, move); TellsOfJobs(after.pump) && DevicesFit(after, after.pump.trace)
  {
    hide R.Invariant, M.Invariant, DevicesFit, WorkFits, ThingFits, UpstreamFits, TellsOfJobs, Tell, MoveScan, HearAll, R.Over, M.Step;
    var after := Step(options, net, move);
    match move
    case Enter =>
      TellKeepsDevices(options, net, R.Enter);
      SameDevicesFit(net, after, net.pump.trace);
    case Stop =>
      TellKeepsDevices(options, net, R.Stop);
      SameDevicesFit(net, after, net.pump.trace);
    case SessionLost(i) =>
      TellKeepsDevices(options, net, R.SessionClosed(i));
      SameDevicesFit(net, after, net.pump.trace);
    case Pump(event, opens) =>
      PumpFits(options, net, event, opens);
    case Begin(i, closed) =>
      if i < |net.works| {
        var wanted := Wanted(options, net, i, closed);
        TellKeepsDevices(options, net, R.SessionWanted(i));
        assert SameDevices(net, wanted);
        SameDevicesFit(net, wanted, net.pump.trace);
        MoveKeepsDevices(options, wanted, i, StartOf(net, i, closed));
        SameDevicesFit(wanted, after, net.pump.trace);
      }
    case Answer(i, registers, closed) =>
      if i < |net.works| {
        MoveKeepsDevices(options, net, i, AnswerOf(net, i, registers, closed));
        SameDevicesFit(net, after, net.pump.trace);
      }
  }

  lemma {:induction false} RunFits(options: Options, net: Net, moves: seq<Move>)
    requires ValidOptions(options) && Joined(options, net, net.pump.trace) && TellsOfJobs(net.pump) && DevicesFit(net, net.pump.trace)
    ensures var after := Run(options, net, moves); DevicesFit(after, after.pump.trace)
    decreases |moves|
  {
    hide Joined, DevicesFit, TellsOfJobs, Step;
    if moves != [] {
      StepFits(options, net, moves[0]);
      StepKeepsJoined(options, net, moves[0]);
      RunFits(options, Step(options, net, moves[0]), moves[1..]);
    }
  }

  /**
   * In every run the scans are those of the devices the Modbus discovery has identified, in that
   * order, each with the address and port its job was for as endpoint and the job's unit id; and
   * until the discovery is stopped or errs they are all of these.
   */
  lemma ScansAreOfThoseIdentified(options: Options, moves: seq<Move>)
    requires ValidOptions(options)
    ensures var net := Run(options, Fresh, moves);
            var found := Identified(net.pump.trace);
            && |net.works| <= |found|
            && (!R.Over(net.run) ==> |net.works| == |found|)
            && forall i :: 0 <= i < |net.works| ==>
                 && found[i] < |net.pump.jobs|
                 && var job := net.pump.jobs[found[i]];
                    && net.works[i].device.endpoint == S.ModbusEndpoint(job.target.address, job.target.port)
                    && net.works[i].device.unit == job.unit
  {
    hide Run;
    M.Reachable(options.modbus, []);
    Reachable(options, []);
    assert Run(options, Fresh, []) == Fresh by {
      RunOfNothing(options, Fresh);
    }
    RunFits(options, Fresh, moves);
    var net := Run(options, Fresh, moves);
    forall i | 0 <= i < |net.works|
      ensures OfJob(net.pump, Identified(net.pump.trace)[i], net.works[i].device)
    {
    }
  }

  // The sessions of a scan

  /**
   * While the discovery is at work, a scan that starts over a closed session has one more session
   * made for it, one that starts over an open session does not, and a session that is lost is no
   * longer counted.
   */
  lemma SessionsOfScanAreCounted(options: Options, moves: seq<Move>, i: nat, closed: bool)
    requires ValidOptions(options)
    requires var net := Run(options, Fresh, moves);
             i < |net.works| && !R.Over(net.run) && net.works[i].scan.phase.Unstarted? && !net.works[i].scan.cancelled
    ensures var net := Run(options, Fresh, moves);
            var started, lost := Step(options, net, Begin(i, closed)), Step(options, net, SessionLost(i));
            && |net.run.endpoints| == |started.run.endpoints| == |lost.run.endpoints| == |net.works| == |started.works|
            && started.works[i].scan.probes == [S.Probe(0, net.works[i].device.unit)]
            && started.run.endpoints[i].open == net.run.endpoints[i].open + (if closed then 1 else 0)
            && lost.run.endpoints[i].open == (if net.run.endpoints[i].open == 0 then 0 else net.run.endpoints[i].open - 1)
  {
    hide Run;
    Reachable(options, moves);
    var net := Run(options, Fresh, moves);
    assert WorkFits(options, net.run, i, net.works[i]);
    StartIsCounted(options, net, i, closed);
    LossIsCounted(options, net, i);
  }

  lemma StartIsCounted(options: Options, net: Net, i: nat, closed: bool)
    requires i < |net.works| == |net.run.endpoints| && !R.Over(net.run) && !net.run.endpoints[i].completed
    requires net.works[i].scan.phase.Unstarted? && !net.works[i].scan.cancelled && net.works[i].scan.probes == []
    ensures var started := Step(options, net, Begin(i, closed));
            && |started.run.endpoints| == |net.run.endpoints| == |started.works|
            && started.works[i].scan.probes == [S.Probe(0, net.works[i].device.unit)]
            && started.run.endpoints[i].open == net.run.endpoints[i].open + (if closed then 1 else 0)
  {
    var wanted := Wanted(options, net, i, closed);
    assert wanted.works[i] == net.works[i];
    assert Since(net.works[i].scan.trace, Moved(options, wanted.works[i], StartOf(net, i, closed)).scan.trace) == [];
  }

  lemma LossIsCounted(options: Options, net: Net, i: nat)
    requires i < |net.works| == |net.run.endpoints|
    ensures var lost := Step(options, net, SessionLost(i));
            && |lost.run.endpoints| == |net.run.endpoints|
            && lost.run.endpoints[i].open == (if net.run.endpoints[i].open == 0 then 0 else net.run.endpoints[i].open - 1)
  {
  }

  // The limits

  /**
   * In every run each read of a scan's walk goes to the unit of its device and stays in the
   * allowed span, and what is passed on has no more locations than allowed.
   */
  lemma ScansStayWithinLimits(options: Options, moves: seq<Move>, i: nat, k: nat)
    requires ValidOptions(options) && i < |Run(options, Fresh, moves).works|
    ensures var net := Run(options, Fresh, moves);
            var work := net.works[i];
            && (k < |work.scan.chunks| ==>
                  && work.scan.chunks[k].unit == work.device.unit
                  && work.scan.chunks[k].address + work.scan.chunks[k].count <= 40000 + options.maxRegisterSpan)
            && (R.Next(i) in net.run.trace ==>
                  && work.scan.trace != [] && work.scan.trace[0].Next?
                  && |work.scan.trace[0].thing.locations| <= options.maxModels)
  {
    hide Run;
    Reachable(options, moves);
    var net := Run(options, Fresh, moves);
    assert WorkFits(options, net.run, i, net.works[i]);
    if R.Next(i) in net.run.trace {
      PassedOnIsSound(options, moves, i);
    }
    hide R.Invariant, M.Invariant, P.TraceFits, P.ProbesFit, ThingFits;
  }
}
