/**
 * The SunSpec discovery with what it stands on: the Modbus discovery it listens to, and a scan for
 * each device that has found. What these tell reaches the discovery as it is told, and what the
 * discovery cancels is cancelled there and then; what is posted to the loop is a move of its own.
 */
module DiscoveryStack {
  import opened Bytes
  import opened DiscoverySteps
  import M = ModbusPump
  import P = ScanProperties
  import R = DiscoveryRun
  import S = ScanSpec
  import T = ScanTheorems

  datatype Options = Options(modbus: M.Options, maxModels: nat, maxRegisterSpan: nat)

  predicate ValidOptions(options: Options) {
    M.ValidOptions(options.modbus) && options.maxModels > 0 && options.maxRegisterSpan >= 4
  }

  datatype Device = Device(endpoint: S.ModbusEndpoint, unit: byte)

  /** The scan of one device. */
  datatype Work = Work(device: Device, scan: S.Scan)

  /** `refused`: an endpoint could not be opened for a device, while the discovery was at work. */
  datatype Net = Net(pump: M.State, run: R.State, works: seq<Work>, refused: bool)

  const Fresh := Net(M.Initial, R.Initial, [], false)

  /**
   * `Pump` is an event of the Modbus discovery, whose start is posted when the SunSpec discovery
   * enters the loop; `opens` says whether an endpoint can be opened for the device it may find.
   * `Begin` is the posted start of a scan and `Answer` the reply to its read, or its failure, with
   * its session `closed` or not.
   */
  datatype Move =
    | Enter
    | Stop
    | Pump(event: M.Event, opens: bool)
    | SessionLost(i: nat)
    | Begin(i: nat, closed: bool)
    | Answer(i: nat, registers: Option<seq<u16>>, closed: bool)

  function ScanOptions(options: Options, device: Device): S.Options {
    S.Options(options.maxModels, options.maxRegisterSpan, Some(device.unit))
  }

  function Moved(options: Options, work: Work, event: S.Event): Work {
    work.(scan := S.Step(ScanOptions(options, work.device), work.scan, event))
  }

  predicate AtWork(scan: S.Scan) {
    scan.phase.Probing? || scan.phase.Walking?
  }

  /** A scan that is at work completes while it is being cancelled; one that is to start later does not. */
  function WorldOf(works: seq<Work>): R.World {
    (i: nat) => i < |works| && AtWork(works[i].scan)
  }

  predicate Asked(before: R.State, after: R.State, i: nat) {
    i < |before.endpoints| && i < |after.endpoints| && after.endpoints[i].cancelled && !before.endpoints[i].cancelled
  }

  /** The scans the discovery has asked to cancel are cancelled. */
  function Cancelled(options: Options, works: seq<Work>, before: R.State, after: R.State): (cancelled: seq<Work>)
    ensures |cancelled| == |works|
  {
    seq(|works|, i requires 0 <= i < |works| =>
      if Asked(before, after, i) then Moved(options, works[i], S.Cancel) else works[i])
  }

  function Tell(options: Options, net: Net, event: R.Event): (after: Net)
    ensures after.pump == net.pump && after.refused == net.refused && |after.works| == |net.works|
  {
    var run := R.Step(net.run, event, WorldOf(net.works));
    net.(run := run, works := Cancelled(options, net.works, net.run, run))
  }

  function DeviceOf(pump: M.State, job: nat): Device {
    if job < |pump.jobs| then
      Device(S.ModbusEndpoint(pump.jobs[job].target.address, pump.jobs[job].target.port), pump.jobs[job].unit)
    else Device(S.ModbusEndpoint("", 0), 0)
  }

  /** A device found by the Modbus discovery gets an endpoint and a scan, unless the discovery is over. */
  function Hear(options: Options, net: Net, opens: bool, signal: M.Signal): Net {
    match signal
    case Identified(job) =>
      var told := Tell(options, net, R.Candidate(opens));
      told.(
        refused := net.refused || R.Errs(net.run, R.Candidate(opens)),
        works := told.works + if Opens(net.run, R.Candidate(opens)) then [Work(DeviceOf(net.pump, job), S.Initial)] else [])
    case Completed => Tell(options, net, R.UpstreamCompleted)
    case Errored => Tell(options, net, R.UpstreamFailed)
  }

  function HearAll(options: Options, net: Net, opens: bool, signals: seq<M.Signal>): Net
    decreases |signals|
  {
    if signals == [] then net else HearAll(options, Hear(options, net, opens, signals[0]), opens, signals[1..])
  }

  function EventOf(i: nat, emission: S.Emission): R.Event {
    match emission
    case Next(_) => R.Found(i)
    case Completed => R.ScanCompleted(i)
    case Errored => R.ScanFailed(i)
  }

  function PassAll(options: Options, net: Net, i: nat, emissions: seq<S.Emission>): Net
    decreases |emissions|
  {
    if emissions == [] then net
    else PassAll(options, Tell(options, net, EventOf(i, emissions[0])), i, emissions[1..])
  }

  /** What has been added to a trace. */
  function Since<A>(before: seq<A>, after: seq<A>): seq<A> {
    if |before| <= |after| then after[|before|..] else []
  }

  function MoveScan(options: Options, net: Net, i: nat, event: S.Event): Net
    requires i < |net.works|
  {
    var work := Moved(options, net.works[i], event);
    PassAll(options, net.(works := net.works[i := work]), i, Since(net.works[i].scan.trace, work.scan.trace))
  }

  /** A closed session is replaced by the discovery's factory, which refuses once the discovery is over. */
  function EnvOf(net: Net, i: nat, closed: bool): S.Env
    requires i < |net.works|
  {
    S.Env(closed, if R.Over(net.run) then None else Some(net.works[i].device.endpoint))
  }

  function StartOf(net: Net, i: nat, closed: bool): S.Event
    requires i < |net.works|
  {
    S.Start(Some(net.works[i].device.endpoint), EnvOf(net, i, closed))
  }

  function AnswerOf(net: Net, i: nat, registers: Option<seq<u16>>, closed: bool): S.Event
    requires i < |net.works|
  {
    match registers
    case Some(registers) => S.Reply(registers, EnvOf(net, i, closed))
    case None => S.Failure(EnvOf(net, i, closed))
  }

  /** A scan that starts over a closed session asks for another. */
  function Wanted(options: Options, net: Net, i: nat, closed: bool): Net
    requires i < |net.works|
  {
    if closed && net.works[i].scan.phase.Unstarted? && !net.works[i].scan.cancelled
    then Tell(options, net, R.SessionWanted(i)) else net
  }

  function Step(options: Options, net: Net, move: Move): Net {
    match move
    case Enter => Tell(options, net, R.Enter)
    case Stop => Tell(options, net, R.Stop)
    case Pump(event, opens) =>
      if event.Start? && !net.run.listened then net
      else
        var pump := M.Step(options.modbus, net.pump, event);
        HearAll(options, net.(pump := pump), opens, Since(net.pump.trace, pump.trace))
    case SessionLost(i) => Tell(options, net, R.SessionClosed(i))
    case Begin(i, closed) =>
      if i >= |net.works| then net
      else MoveScan(options, Wanted(options, net, i, closed), i, StartOf(net, i, closed))
    case Answer(i, registers, closed) =>
      if i >= |net.works| then net else MoveScan(options, net, i, AnswerOf(net, i, registers, closed))
  }

  function Run(options: Options, net: Net, moves: seq<Move>): Net
    decreases |moves|
  {
    if moves == [] then net else Run(options, Step(options, net, moves[0]), moves[1..])
  }

  // What every run keeps

  ghost predicate Emits(scan: S.Scan) {
    exists k :: 0 <= k < |scan.trace| && scan.trace[k].Next?
  }

  /** A scan and what the discovery knows of it. */
  ghost predicate WorkFits(options: Options, run: R.State, i: nat, work: Work)
    requires i < |run.endpoints|
  {
    var endpoint, scan := run.endpoints[i], work.scan;
    && P.Invariant(ScanOptions(options, work.device), scan) && DeviceFits(work)
    && (!run.failing ==> (endpoint.completed <==> scan.phase.Finished?))
    && (run.stopping && !run.failing && !scan.phase.Finished? ==> scan.phase.Unstarted? && scan.cancelled)
  }

  /** The things passed on are those the scans have emitted, all of them until a stop. */
  ghost predicate ThingFits(run: R.State, i: nat, work: Work)
    requires i < |run.endpoints|
  {
    && (run.endpoints[i].emitted <==> R.Next(i) in run.trace)
    && (R.Next(i) in run.trace ==> Emits(work.scan))
    && (!run.stopping && Emits(work.scan) ==> R.Next(i) in run.trace)
  }

  /** The discovery has heard this of the Modbus discovery. */
  ghost predicate UpstreamFits(net: Net, heard: seq<M.Signal>) {
    && heard <= net.pump.trace
    && (!net.run.listened ==> !net.pump.begun && heard == [])
    && (!net.run.failing ==> (net.run.upstreamCompleted <==> M.Completed in heard))
    && (net.run.failing <==> net.refused || M.Errored in heard)
    && (net.run.failing ==> net.run.stopping)
  }

  ghost predicate Joined(options: Options, net: Net, heard: seq<M.Signal>) {
    && M.Invariant(options.modbus, net.pump)
    && R.Invariant(net.run)
    && |net.works| == |net.run.endpoints|
    && UpstreamFits(net, heard)
    && forall i :: 0 <= i < |net.works| ==> WorkFits(options, net.run, i, net.works[i]) && ThingFits(net.run, i, net.works[i])
  }

  /** What a scan knows of its device. */
  ghost predicate DeviceFits(work: Work) {
    && (work.scan.endpoint.Some? ==> work.scan.endpoint == Some(work.device.endpoint))
    && (work.scan.selected.Some? ==> work.scan.selected == Some(work.device.unit))
  }

  // Cancelling

  lemma CancelOfScan(options: Options, work: Work)
    requires P.Invariant(ScanOptions(options, work.device), work.scan) && DeviceFits(work)
    ensures var after := Moved(options, work, S.Cancel);
            && P.Invariant(ScanOptions(options, work.device), after.scan) && DeviceFits(after) && after.scan.cancelled
            && (after.scan.phase.Finished? <==> !work.scan.phase.Unstarted?)
            && (after.scan.phase.Unstarted? <==> work.scan.phase.Unstarted?)
            && (Emits(after.scan) <==> Emits(work.scan))
  {
    hide P.Invariant, Emits;
    P.CancelKeepsInvariant(ScanOptions(options, work.device), work.scan);
    CancelEmitsNothing(options, work);
  }

  lemma CancelEmitsNothing(options: Options, work: Work)
    ensures Emits(Moved(options, work, S.Cancel).scan) <==> Emits(work.scan)
  {
    var before, after := work.scan.trace, Moved(options, work, S.Cancel).scan.trace;
    assert after == before || after == before + [S.Completed];
    if k: nat :| k < |before| && before[k].Next? {
      assert after[k].Next?;
    }
    if k: nat :| k < |after| && after[k].Next? {
      assert before[k].Next?;
    }
  }

  // What the discovery is told

  /** Any event but the end of this very scan. */
  lemma TellKeepsWork(options: Options, net: Net, event: R.Event, k: nat)
    requires R.Invariant(net.run) && |net.works| == |net.run.endpoints| && k < |net.works|
    requires WorkFits(options, net.run, k, net.works[k]) && !Ends(net.run, event, k)
    ensures var after := Tell(options, net, event);
            k < |after.run.endpoints| && WorkFits(options, after.run, k, after.works[k])
  {
    hide R.Step, P.Invariant, R.Invariant, DeviceFits, Emits, S.Step;
    var world := WorldOf(net.works);
    StepMoves(net.run, event, world, k);
    StepEndings(net.run, event, world);
    CancelOfScan(options, net.works[k]);
    if Halts(net.run, event) {
      HaltKeepsWork(options, net, k);
    } else if !R.Errs(net.run, event) {
      StepCompletes(net.run, event, world, k);
    }
  }

  lemma HaltKeepsWork(options: Options, net: Net, k: nat)
    requires R.Invariant(net.run) && |net.works| == |net.run.endpoints| && k < |net.works|
    requires WorkFits(options, net.run, k, net.works[k]) && !R.Over(net.run)
    ensures var after := Tell(options, net, R.Stop);
            k < |after.run.endpoints| && WorkFits(options, after.run, k, after.works[k])
  {
    hide R.Step, P.Invariant, R.Invariant, DeviceFits, Emits, S.Step;
    var world := WorldOf(net.works);
    StepMoves(net.run, R.Stop, world, k);
    StepEndings(net.run, R.Stop, world);
    CancelOfScan(options, net.works[k]);
    StopCompletes(net.run, world, k);
    CompletedIsCancelled(net.run, world, k);
    R.StepKeepsInvariant(net.run, R.Stop, world);
    if R.Step(net.run, R.Stop, world).terminal {
      EndedIsCompleted(R.Step(net.run, R.Stop, world), k);
    }
  }

  lemma TellKeepsThing(options: Options, net: Net, event: R.Event, k: nat)
    requires R.Invariant(net.run) && |net.works| == |net.run.endpoints| && k < |net.works|
    requires ThingFits(net.run, k, net.works[k]) && event != R.Found(k)
    requires P.Invariant(ScanOptions(options, net.works[k].device), net.works[k].scan) && DeviceFits(net.works[k])
    ensures var after := Tell(options, net, event);
            k < |after.run.endpoints| && ThingFits(after.run, k, after.works[k])
  {
    hide R.Step, P.Invariant, R.Invariant, DeviceFits, Emits, S.Step;
    var world := WorldOf(net.works);
    StepMoves(net.run, event, world, k);
    R.StepKeepsInvariant(net.run, event, world);
    StepEndings(net.run, event, world);
    CancelOfScan(options, net.works[k]);
  }

  /** Each scan but perhaps one fits what the discovery knows of it. */
  ghost predicate OthersFit(options: Options, net: Net, i: nat)
    requires |net.works| <= |net.run.endpoints|
  {
    forall k :: 0 <= k < |net.works| && k != i ==> WorkFits(options, net.run, k, net.works[k]) && ThingFits(net.run, k, net.works[k])
  }

  lemma OthersStay(options: Options, net: Net, event: R.Event, i: nat)
    requires R.Invariant(net.run) && |net.works| == |net.run.endpoints| && OthersFit(options, net, i)
    requires forall k :: k != i ==> !Ends(net.run, event, k) && event != R.Found(k)
    requires !Opens(net.run, event)
    ensures var after := Tell(options, net, event);
            |after.works| == |after.run.endpoints| && R.Invariant(after.run) && OthersFit(options, after, i)
  {
    hide R.Step, P.Invariant, R.Invariant, DeviceFits, Emits, S.Step, ThingFits, Opens;
    var after := Tell(options, net, event);
    R.StepKeepsInvariant(net.run, event, WorldOf(net.works));
    StepMoves(net.run, event, WorldOf(net.works), 0);
    forall k | 0 <= k < |after.works| && k != i
      ensures WorkFits(options, after.run, k, after.works[k]) && ThingFits(after.run, k, after.works[k])
    {
      TellKeepsWork(options, net, event, k);
      TellKeepsThing(options, net, event, k);
    }
  }

  /** Nothing the scans or the loop tell changes what has been heard of the Modbus discovery. */
  lemma UpstreamStays(options: Options, net: Net, heard: seq<M.Signal>, event: R.Event)
    requires R.Invariant(net.run) && UpstreamFits(net, heard)
    requires !event.UpstreamCompleted? && !R.Errs(net.run, event)
    ensures UpstreamFits(Tell(options, net, event), heard)
  {
    hide R.Step, R.Invariant;
    StepMoves(net.run, event, WorldOf(net.works), 0);
    StepEndings(net.run, event, WorldOf(net.works));
  }

  // A scan moves

  /** What a scan may be given: no cancellation, and no session only once the discovery is over. */
  predicate Served(run: R.State, event: S.Event) {
    && !event.Cancel?
    && (event.Start? ==> event.session.Some? && (event.env.replacement.None? ==> R.Over(run)))
  }

  /** What becomes of a scan of one unit in one step. */
  lemma ScanStep(options: S.Options, scan: S.Scan, event: S.Event)
    requires S.ValidOptions(options) && options.fixedUnit.Some? && P.Invariant(options, scan) && !event.Cancel?
    ensures var after := S.Step(options, scan, event);
            && P.Invariant(options, after)
            && (scan.phase.Finished? ==> after == scan)
            && (!scan.phase.Finished? ==> scan.trace == [])
            && (!after.phase.Finished? ==> after.trace == [])
            && (after.phase.Finished? ==> T.TerminalTrace(after.trace))
            && (scan.phase.Unstarted? && !event.Start? ==> after == scan)
            && (scan.phase.Unstarted? && scan.cancelled && event.Start? ==> after.phase.Finished?)
            && (!scan.phase.Finished? && S.Errored in after.trace ==> event.Start? && T.CannotStart(event))
  {
    P.StepKeepsInvariant(options, scan, event);
    hide S.OnChunk, S.OnProbeResponse, S.OnProbeFailure, S.ProbeUnit, P.ProbesFit, P.Tiled, P.Sound;
    if scan.trace == [] {
      T.FixedUnitErrsOnlyAtStart(options, scan, event);
    }
  }

  lemma EmitsExactly(scan: S.Scan)
    requires scan.trace == [] || T.TerminalTrace(scan.trace)
    ensures Emits(scan) <==> |scan.trace| == 2
  {
    if |scan.trace| == 2 {
      assert scan.trace[0].Next?;
    }
  }

  /** What a scan is given is of its device. */
  predicate OfDevice(device: Device, event: S.Event) {
    && (event.Start? ==> event.session == Some(device.endpoint))
    && (!event.Cancel? && event.env.replacement.Some? ==> event.env.replacement == Some(device.endpoint))
  }

  lemma OnChunkLeaves(options: S.Options, scan: S.Scan, registers: seq<u16>)
    requires scan.phase.Walking?
    ensures var after := S.OnChunk(options, scan, registers);
            after.endpoint == scan.endpoint && after.selected == scan.selected
  {
    hide S.InSpan, S.End, S.ThingOf, S.Instances;
  }

  lemma DeviceStays(options: Options, work: Work, event: S.Event)
    requires DeviceFits(work) && OfDevice(work.device, event)
    ensures DeviceFits(Moved(options, work, event))
  {
    hide S.OnChunk, S.InSpan, S.UnitIds, S.ThingOf;
    if event.Reply? && work.scan.phase.Walking? {
      OnChunkLeaves(ScanOptions(options, work.device), work.scan, event.registers);
    }
  }

  lemma EndedFits(options: Options, net: Net, event: R.Event, i: nat)
    requires R.Invariant(net.run) && |net.works| == |net.run.endpoints| && i < |net.works|
    requires net.works[i].scan.phase.Finished? && DeviceFits(net.works[i])
    requires P.Invariant(ScanOptions(options, net.works[i].device), net.works[i].scan)
    requires event == R.ScanCompleted(i) || event == R.ScanFailed(i)
    requires !R.Errs(net.run, event) && (net.run.terminal ==> net.run.failing)
    ensures var after := Tell(options, net, event);
            i < |after.run.endpoints| && WorkFits(options, after.run, i, after.works[i])
  {
    hide R.Step, P.Invariant, R.Invariant, DeviceFits, Emits, S.Step;
    var world := WorldOf(net.works);
    StepMoves(net.run, event, world, i);
    StepEndings(net.run, event, world);
    StepCompletes(net.run, event, world, i);
  }

  /** The discovery hears of the end of a scan. */
  lemma TellsEnd(options: Options, net: Net, heard: seq<M.Signal>, event: R.Event, i: nat)
    requires M.Invariant(options.modbus, net.pump) && R.Invariant(net.run) && |net.works| == |net.run.endpoints|
    requires UpstreamFits(net, heard) && i < |net.works| && OthersFit(options, net, i) && ThingFits(net.run, i, net.works[i])
    requires net.works[i].scan.phase.Finished? && DeviceFits(net.works[i])
    requires P.Invariant(ScanOptions(options, net.works[i].device), net.works[i].scan)
    requires event == R.ScanCompleted(i) || event == R.ScanFailed(i)
    requires !R.Errs(net.run, event) && (net.run.terminal ==> net.run.failing)
    ensures Joined(options, Tell(options, net, event), heard)
  {
    hide R.Step, P.Invariant, R.Invariant, DeviceFits, Emits, S.Step, WorkFits, ThingFits, UpstreamFits;
    OthersStay(options, net, event, i);
    UpstreamStays(options, net, heard, event);
    EndedFits(options, net, event, i);
    TellKeepsThing(options, net, event, i);
  }

  /** The discovery hears of a thing. */
  lemma TellsThing(options: Options, net: Net, i: nat, before: Work)
    requires R.Invariant(net.run) && |net.works| == |net.run.endpoints| && i < |net.works|
    requires ThingFits(net.run, i, before) && !Emits(before.scan) && Emits(net.works[i].scan)
    requires (net.run.terminal ==> net.run.failing) && (net.run.failing ==> net.run.stopping)
    ensures var after := Tell(options, net, R.Found(i));
            && i < |after.run.endpoints| && ThingFits(after.run, i, after.works[i]) && after.works[i] == net.works[i]
            && after.run.terminal == net.run.terminal && after.run.failing == net.run.failing
  {
    hide R.Invariant, Emits, S.Step;
    var world := WorldOf(net.works);
    FoundLeaves(net.run, i, world);
    hide R.Step;
    StepMoves(net.run, R.Found(i), world, i);
    StepEndings(net.run, R.Found(i), world);
  }

  lemma FoundLeaves(run: R.State, i: nat, world: R.World)
    ensures R.Step(run, R.Found(i), world).terminal == run.terminal
  {
  }

  /** What the discovery is told when a scan ends. */
  lemma EndIsPassedOn(options: Options, net: Net, i: nat, thing: S.Thing)
    ensures PassAll(options, net, i, [S.Completed]) == Tell(options, net, R.ScanCompleted(i))
    ensures PassAll(options, net, i, [S.Errored]) == Tell(options, net, R.ScanFailed(i))
    ensures PassAll(options, net, i, [S.Next(thing), S.Completed])
         == Tell(options, Tell(options, net, R.Found(i)), R.ScanCompleted(i))
  {
    hide Tell;
    var found := Tell(options, net, R.Found(i));
    assert [S.Completed][1..] == [] && [S.Errored][1..] == [];
    assert [S.Next(thing), S.Completed][1..] == [S.Completed];
    assert PassAll(options, found, i, [S.Completed]) == Tell(options, found, R.ScanCompleted(i));
  }

  lemma ScanEnding(options: Options, net: Net, heard: seq<M.Signal>, i: nat, event: S.Event)
    requires ValidOptions(options) && Joined(options, net, heard) && i < |net.works|
    requires Served(net.run, event) && OfDevice(net.works[i].device, event)
    requires !net.works[i].scan.phase.Finished? && Moved(options, net.works[i], event).scan.phase.Finished?
    ensures Joined(options, MoveScan(options, net, i, event), heard)
  {
    hide R.Step, P.Invariant, R.Invariant, M.Invariant, Emits, S.Step, DeviceFits, OfDevice, R.Over, Tell;
    var before, after := net.works[i], Moved(options, net.works[i], event);
    var base := net.(works := net.works[i := after]);
    assert WorkFits(options, net.run, i, before) && ThingFits(net.run, i, before);
    ScanStep(ScanOptions(options, before.device), before.scan, event);
    DeviceStays(options, before, event);
    EmitsExactly(before.scan);
    EmitsExactly(after.scan);
    assert OthersFit(options, base, i);
    assert Since(before.scan.trace, after.scan.trace) == after.scan.trace;
    if net.run.terminal && !net.run.failing {
      EndedIsCompleted(net.run, i);
    }
    if |after.scan.trace| == 2 {
      assert after.scan.trace == [S.Next(after.scan.trace[0].thing), S.Completed];
      EndIsPassedOn(options, base, i, after.scan.trace[0].thing);
      ThingEnding(options, net, heard, i, after);
    } else {
      EndIsPassedOn(options, base, i, S.Thing(before.device.endpoint, 0, 0, [], S.StringsOf([])));
      var told := if after.scan.trace == [S.Completed] then R.ScanCompleted(i) else R.ScanFailed(i);
      PlainEnding(options, net, i, after);
      TellsEnd(options, base, heard, told, i);
    }
  }

  /** A scan that ends without a thing leaves the things as they are. */
  lemma PlainEnding(options: Options, net: Net, i: nat, after: Work)
    requires i < |net.works| && i < |net.run.endpoints| && ThingFits(net.run, i, net.works[i])
    requires Emits(after.scan) <==> Emits(net.works[i].scan)
    ensures ThingFits(net.run, i, after)
  {
  }

  lemma ThingEnding(options: Options, net: Net, heard: seq<M.Signal>, i: nat, after: Work)
    requires Joined(options, net, heard) && i < |net.works|
    requires var base := net.(works := net.works[i := after]); OthersFit(options, base, i)
    requires !Emits(net.works[i].scan) && Emits(after.scan) && after.scan.phase.Finished? && DeviceFits(after)
    requires P.Invariant(ScanOptions(options, after.device), after.scan)
    requires net.run.terminal ==> net.run.failing
    ensures var base := net.(works := net.works[i := after]);
            Joined(options, Tell(options, Tell(options, base, R.Found(i)), R.ScanCompleted(i)), heard)
  {
    hide R.Step, P.Invariant, R.Invariant, M.Invariant, Emits, S.Step, DeviceFits, WorkFits, ThingFits, Cancelled;
    var base := net.(works := net.works[i := after]);
    assert ThingFits(net.run, i, net.works[i]);
    var found := Tell(options, base, R.Found(i));
    TellsThing(options, base, i, net.works[i]);
    OthersStay(options, base, R.Found(i), i);
    UpstreamStays(options, base, heard, R.Found(i));
    TellsEnd(options, found, heard, R.ScanCompleted(i), i);
  }

  lemma MoveScanKeeps(options: Options, net: Net, heard: seq<M.Signal>, i: nat, event: S.Event)
    requires ValidOptions(options) && Joined(options, net, heard) && i < |net.works|
    requires Served(net.run, event) && OfDevice(net.works[i].device, event)
    ensures Joined(options, MoveScan(options, net, i, event), heard)
  {
    hide R.Step, P.Invariant, R.Invariant, M.Invariant, Emits, S.Step, R.Over, DeviceFits, OfDevice;
    var before, after := net.works[i], Moved(options, net.works[i], event);
    var base := net.(works := net.works[i := after]);
    assert WorkFits(options, net.run, i, before) && ThingFits(net.run, i, before);
    ScanStep(ScanOptions(options, before.device), before.scan, event);
    DeviceStays(options, before, event);
    EmitsExactly(before.scan);
    EmitsExactly(after.scan);
    assert OthersFit(options, base, i);
    if before.scan.phase.Finished? || !after.scan.phase.Finished? {
      assert Since(before.scan.trace, after.scan.trace) == [];
      assert MoveScan(options, net, i, event) == base;
    } else {
      ScanEnding(options, net, heard, i, event);
    }
  }

  // What the Modbus discovery tells

  lemma FreshWorkFits(options: Options, device: Device)
    requires ValidOptions(options)
    ensures P.Invariant(ScanOptions(options, device), S.Initial) && !Emits(S.Initial) && DeviceFits(Work(device, S.Initial))
  {
    T.Reachable(ScanOptions(options, device), []);
  }

  lemma TellKeepsAll(options: Options, net: Net, event: R.Event)
    requires R.Invariant(net.run) && |net.works| == |net.run.endpoints|
    requires forall k :: 0 <= k < |net.works| ==> WorkFits(options, net.run, k, net.works[k]) && ThingFits(net.run, k, net.works[k])
    requires !event.ScanCompleted? && !event.ScanFailed? && !event.Found?
    ensures var after := Tell(options, net, event);
            && R.Invariant(after.run) && |after.works| <= |after.run.endpoints|
            && |after.run.endpoints| == |after.works| + (if Opens(net.run, event) then 1 else 0)
            && forall k :: 0 <= k < |after.works| ==>
                 WorkFits(options, after.run, k, after.works[k]) && ThingFits(after.run, k, after.works[k])
  {
    hide R.Step, P.Invariant, R.Invariant, DeviceFits, Emits, S.Step, ThingFits, Opens;
    var after := Tell(options, net, event);
    R.StepKeepsInvariant(net.run, event, WorldOf(net.works));
    StepMoves(net.run, event, WorldOf(net.works), 0);
    forall k | 0 <= k < |after.works|
      ensures k < |after.run.endpoints|
              && WorkFits(options, after.run, k, after.works[k]) && ThingFits(after.run, k, after.works[k])
    {
      assert WorkFits(options, net.run, k, net.works[k]);
      TellKeepsWork(options, net, event, k);
      TellKeepsThing(options, net, event, k);
    }
  }

  /** An endpoint just opened. */
  lemma OpenedFits(options: Options, net: Net, device: Device)
    requires ValidOptions(options) && R.Invariant(net.run) && Opens(net.run, R.Candidate(true))
    ensures var run, k := R.Step(net.run, R.Candidate(true), WorldOf(net.works)), |net.run.endpoints|;
            && |run.endpoints| == k + 1
            && WorkFits(options, run, k, Work(device, S.Initial)) && ThingFits(run, k, Work(device, S.Initial))
  {
    var world := WorldOf(net.works);
    OpenedIsFresh(net.run, R.Candidate(true), world);
    StepEndings(net.run, R.Candidate(true), world);
    StepMoves(net.run, R.Candidate(true), world, |net.run.endpoints|);
    UnopenedIsUntold(net.run);
    FreshWorkFits(options, device);
    hide R.Step, P.Invariant, R.Invariant, DeviceFits, Emits;
  }

  lemma UnopenedIsUntold(run: R.State)
    requires R.Invariant(run)
    ensures R.Next(|run.endpoints|) !in run.trace
  {
  }

  /** The discovery still listens when it hears something new of the Modbus discovery. */
  lemma StillListens(options: Options, net: Net, heard: seq<M.Signal>, signal: M.Signal)
    requires M.Invariant(options.modbus, net.pump) && R.Invariant(net.run) && UpstreamFits(net, heard)
    requires heard + [signal] <= net.pump.trace && net.pump.begun
    ensures M.Completed !in heard && M.Errored !in heard
    ensures net.run.failing || net.run.subscribed
  {
    forall k | 0 <= k < |heard|
      ensures !M.Terminal(heard[k])
    {
      assert heard[k] == net.pump.trace[k];
    }
    if !net.run.failing {
      EndsWhenAllHave(net.run);
    }
  }

  lemma HearKeepsUpstream(options: Options, net: Net, heard: seq<M.Signal>, opens: bool, signal: M.Signal)
    requires M.Invariant(options.modbus, net.pump) && R.Invariant(net.run) && UpstreamFits(net, heard)
    requires heard + [signal] <= net.pump.trace && net.pump.begun
    ensures UpstreamFits(Hear(options, net, opens, signal), heard + [signal])
  {
    StillListens(options, net, heard, signal);
    hide R.Step, R.Invariant, M.Invariant;
    var event := match signal
                 case Identified(job) => R.Candidate(opens)
                 case Completed => R.UpstreamCompleted
                 case Errored => R.UpstreamFailed;
    StepMoves(net.run, event, WorldOf(net.works), 0);
    StepEndings(net.run, event, WorldOf(net.works));
  }

  lemma HearKeeps(options: Options, net: Net, heard: seq<M.Signal>, opens: bool, signal: M.Signal)
    requires ValidOptions(options) && Joined(options, net, heard)
    requires heard + [signal] <= net.pump.trace && net.pump.begun
    ensures Joined(options, Hear(options, net, opens, signal), heard + [signal])
  {
    hide R.Step, P.Invariant, R.Invariant, M.Invariant, DeviceFits, Emits, S.Step, ThingFits, WorkFits, UpstreamFits, Opens, R.Errs;
    HearKeepsUpstream(options, net, heard, opens, signal);
    match signal
    case Identified(job) =>
      TellKeepsAll(options, net, R.Candidate(opens));
      if Opens(net.run, R.Candidate(opens)) {
        OpensOnly(net.run, opens);
        OpenedFits(options, net, DeviceOf(net.pump, job));
      }
    case Completed =>
      TellKeepsAll(options, net, R.UpstreamCompleted);
      OpensOnly(net.run, opens);
    case Errored =>
      TellKeepsAll(options, net, R.UpstreamFailed);
      OpensOnly(net.run, opens);
  }

  lemma OpensOnly(run: R.State, opens: bool)
    ensures Opens(run, R.Candidate(opens)) ==> opens
    ensures !Opens(run, R.UpstreamCompleted) && !Opens(run, R.UpstreamFailed)
    ensures forall event: R.Event :: !event.Candidate? ==> !Opens(run, event)
  {
  }

  lemma {:induction false} HearAllKeeps(options: Options, net: Net, heard: seq<M.Signal>, opens: bool, signals: seq<M.Signal>)
    requires ValidOptions(options) && Joined(options, net, heard)
    requires heard + signals == net.pump.trace && net.pump.begun
    ensures var after := HearAll(options, net, opens, signals);
            after.pump == net.pump && Joined(options, after, net.pump.trace)
    decreases |signals|
  {
    hide Joined, Hear;
    if signals == [] {
      assert heard + [] == heard;
    } else {
      assert heard + signals == heard + [signals[0]] + signals[1..];
      HearKeeps(options, net, heard, opens, signals[0]);
      HearLeavesPump(options, net, opens, signals[0]);
      HearAllKeeps(options, Hear(options, net, opens, signals[0]), heard + [signals[0]], opens, signals[1..]);
    }
  }

  lemma HearLeavesPump(options: Options, net: Net, opens: bool, signal: M.Signal)
    ensures Hear(options, net, opens, signal).pump == net.pump
  {
  }

  // Every run

  predicate Grows(pump: M.State, after: M.State) {
    pump.trace <= after.trace && after.begun == pump.begun
  }

  lemma GrowsTwice(first: M.State, second: M.State, third: M.State)
    requires Grows(first, second) && Grows(second, third)
    ensures Grows(first, third)
  {
  }

  lemma EndingGrows(pump: M.State)
    ensures Grows(pump, M.MaybeComplete(pump)) && Grows(pump, M.Finish(pump))
  {
  }

  lemma FillGrows(options: M.Options, pump: M.State)
    ensures Grows(pump, M.Fill(options, pump))
  {
    hide M.MaybeComplete, M.Reach;
    EndingGrows(M.Launch(options, pump));
  }

  lemma ReportGrows(options: M.Options, pump: M.State, job: nat, identified: bool)
    ensures Grows(pump, M.Fill(options, M.Reported(pump, job, identified)))
  {
    FillGrows(options, M.Reported(pump, job, identified));
    hide M.Fill;
    GrowsTwice(pump, M.Reported(pump, job, identified), M.Fill(options, M.Reported(pump, job, identified)));
  }

  lemma PumpGrows(options: M.Options, pump: M.State, event: M.Event)
    ensures pump.trace <= M.Step(options, pump, event).trace
    ensures M.Step(options, pump, event).begun <==> pump.begun || event.Start?
  {
    hide M.Fill, M.MaybeComplete, M.Finish, M.JobsFor, M.Reported;
    match event
    case Start =>
      EndingGrows(pump.(begun := true, upstreamCompleted := true));
    case Candidate(target) =>
      FillGrows(options, pump.(jobs := pump.jobs + M.JobsFor(options, target)));
    case Report(job, identified) =>
      ReportGrows(options, pump, job, identified);
    case UpstreamCompleted =>
      EndingGrows(pump.(upstreamCompleted := true));
    case UpstreamFailed =>
    case Stop =>
      EndingGrows(M.Cut(pump));
  }

  lemma UnbegunSaysNothing(options: M.Options, pump: M.State, event: M.Event)
    requires M.Invariant(options, pump) && !pump.begun && !event.Start?
    ensures !M.Step(options, pump, event).begun && M.Step(options, pump, event).trace == pump.trace
  {
  }

  lemma PumpKeeps(options: Options, net: Net, event: M.Event, opens: bool)
    requires ValidOptions(options) && Joined(options, net, net.pump.trace)
    ensures var after := Step(options, net, Pump(event, opens)); Joined(options, after, after.pump.trace)
  {
    hide R.Step, P.Invariant, R.Invariant, DeviceFits, Emits, S.Step, ThingFits, WorkFits, M.Step, M.Invariant, HearAll;
    if !event.Start? || net.run.listened {
      var pump := M.Step(options.modbus, net.pump, event);
      M.StepKeepsInvariant(options.modbus, net.pump, event);
      PumpGrows(options.modbus, net.pump, event);
      var since := Since(net.pump.trace, pump.trace);
      assert net.pump.trace + since == pump.trace;
      var heard := net.(pump := pump);
      if !pump.begun {
        UnbegunSaysNothing(options.modbus, net.pump, event);
        assert HearAll(options, heard, opens, since) == heard by {
          SilenceIsNotHeard(options, heard, opens);
        }
      } else {
        if !net.pump.begun && !event.Start? {
          UnbegunSaysNothing(options.modbus, net.pump, event);
        }
        HearAllKeeps(options, heard, net.pump.trace, opens, since);
      }
    }
  }

  lemma SilenceIsNotHeard(options: Options, net: Net, opens: bool)
    ensures HearAll(options, net, opens, []) == net
  {
  }

  /** What the loop tells: the start, the stop, and sessions that come and go. */
  lemma TellKeepsJoined(options: Options, net: Net, heard: seq<M.Signal>, event: R.Event)
    requires ValidOptions(options) && Joined(options, net, heard)
    requires event.Enter? || event.Stop? || event.SessionWanted? || event.SessionClosed?
    ensures Joined(options, Tell(options, net, event), heard)
  {
    hide R.Step, P.Invariant, R.Invariant, M.Invariant, DeviceFits, Emits, S.Step, ThingFits, WorkFits, UpstreamFits;
    TellKeepsAll(options, net, event);
    UpstreamStays(options, net, heard, event);
  }

  lemma StepKeepsJoined(options: Options, net: Net, move: Move)
    requires ValidOptions(options) && Joined(options, net, net.pump.trace)
    ensures var after := Step(options, net, move); Joined(options, after, after.pump.trace)
  {
    hide Joined, Tell, MoveScan, HearAll;
    match move
    case Enter =>
      TellKeepsJoined(options, net, net.pump.trace, R.Enter);
    case Stop =>
      TellKeepsJoined(options, net, net.pump.trace, R.Stop);
    case Pump(event, opens) =>
      PumpKeeps(options, net, event, opens);
    case SessionLost(i) =>
      TellKeepsJoined(options, net, net.pump.trace, R.SessionClosed(i));
    case Begin(i, closed) =>
      if i < |net.works| {
        BeginKeeps(options, net, i, closed);
      }
    case Answer(i, registers, closed) =>
      if i < |net.works| {
        ScanLeavesPump(options, net, i, AnswerOf(net, i, registers, closed));
        MoveScanKeeps(options, net, net.pump.trace, i, AnswerOf(net, i, registers, closed));
      }
  }

  lemma BeginKeeps(options: Options, net: Net, i: nat, closed: bool)
    requires ValidOptions(options) && Joined(options, net, net.pump.trace) && i < |net.works|
    ensures var after := Step(options, net, Begin(i, closed)); Joined(options, after, after.pump.trace)
  {
    hide Joined, Tell, MoveScan, Wanted, R.Over, R.Step, S.Step;
    var wanted := Wanted(options, net, i, closed);
    WantedKeeps(options, net, i, closed);
    ScanLeavesPump(options, wanted, i, StartOf(net, i, closed));
    MoveScanKeeps(options, wanted, net.pump.trace, i, StartOf(net, i, closed));
  }

  lemma WantedKeeps(options: Options, net: Net, i: nat, closed: bool)
    requires ValidOptions(options) && Joined(options, net, net.pump.trace) && i < |net.works|
    ensures var wanted := Wanted(options, net, i, closed);
            && Joined(options, wanted, net.pump.trace) && wanted.pump == net.pump && |wanted.works| == |net.works|
            && wanted.works[i].device == net.works[i].device
            && (R.Over(net.run) ==> R.Over(wanted.run))
  {
    TellKeepsJoined(options, net, net.pump.trace, R.SessionWanted(i));
    StepEndings(net.run, R.SessionWanted(i), WorldOf(net.works));
    hide R.Step, S.Step;
  }

  lemma {:induction false} PassingLeavesPump(options: Options, net: Net, i: nat, emissions: seq<S.Emission>)
    ensures PassAll(options, net, i, emissions).pump == net.pump && |PassAll(options, net, i, emissions).works| == |net.works|
    decreases |emissions|
  {
    hide Tell;
    if emissions != [] {
      PassingLeavesPump(options, Tell(options, net, EventOf(i, emissions[0])), i, emissions[1..]);
    }
  }

  lemma ScanLeavesPump(options: Options, net: Net, i: nat, event: S.Event)
    requires i < |net.works|
    ensures MoveScan(options, net, i, event).pump == net.pump && |MoveScan(options, net, i, event).works| == |net.works|
  {
    hide PassAll, Moved;
    var work := Moved(options, net.works[i], event);
    PassingLeavesPump(options, net.(works := net.works[i := work]), i, Since(net.works[i].scan.trace, work.scan.trace));
  }

  lemma {:induction false} RunKeepsJoined(options: Options, net: Net, moves: seq<Move>)
    requires ValidOptions(options) && Joined(options, net, net.pump.trace)
    ensures var after := Run(options, net, moves); Joined(options, after, after.pump.trace)
    decreases |moves|
  {
    hide Joined, Step;
    if moves != [] {
      StepKeepsJoined(options, net, moves[0]);
      RunKeepsJoined(options, Step(options, net, moves[0]), moves[1..]);
    }
  }

  lemma Reachable(options: Options, moves: seq<Move>)
    requires ValidOptions(options)
    ensures var net := Run(options, Fresh, moves); Joined(options, net, net.pump.trace)
  {
    M.Reachable(options.modbus, []);
    RunKeepsJoined(options, Fresh, moves);
  }

  // The theorems

  predicate AllFinished(works: seq<Work>) {
    forall i :: 0 <= i < |works| ==> works[i].scan.phase.Finished?
  }

  /** A listening discovery that has not erred is over exactly when the Modbus discovery has completed and every scan has ended. */
  lemma EndsExactly(options: Options, moves: seq<Move>)
    requires ValidOptions(options)
    requires var net := Run(options, Fresh, moves); net.run.listened && R.Errored !in net.run.trace
    ensures var net := Run(options, Fresh, moves);
            net.run.terminal <==> M.Completed in net.pump.trace && AllFinished(net.works)
  {
    hide Run;
    Reachable(options, moves);
    JoinedEnds(options, Run(options, Fresh, moves));
  }

  lemma JoinedEnds(options: Options, net: Net)
    requires Joined(options, net, net.pump.trace) && net.run.listened && !net.run.failing
    ensures net.run.terminal <==> M.Completed in net.pump.trace && AllFinished(net.works)
  {
    EndsWhenAllHave(net.run);
    hide R.Invariant, M.Invariant, P.Invariant, DeviceFits, ThingFits;
    assert R.AllCompleted(net.run) <==> AllFinished(net.works) by {
      forall i | 0 <= i < |net.works|
        ensures net.run.endpoints[i].completed <==> net.works[i].scan.phase.Finished?
      {
        assert WorkFits(options, net.run, i, net.works[i]);
      }
    }
  }

  lemma FailingIsErred(run: R.State)
    requires R.Invariant(run)
    ensures run.failing <==> R.Errored in run.trace
  {
    if R.Errored in run.trace {
      var k :| 0 <= k < |run.trace| && run.trace[k] == R.Errored;
      assert R.IsEnd(run.trace[k]);
    }
  }

  /**
   * In no run does a failed scan fail the discovery: it errs exactly when the Modbus discovery it
   * listens to does, or an endpoint cannot be opened for a device.
   */
  lemma FailedScanFailsNoDiscovery(options: Options, moves: seq<Move>)
    requires ValidOptions(options)
    ensures var net := Run(options, Fresh, moves);
            R.Errored in net.run.trace <==> net.refused || M.Errored in net.pump.trace
  {
    hide Run, R.Invariant, M.Invariant;
    Reachable(options, moves);
    FailingIsErred(Run(options, Fresh, moves).run);
  }

  /**
   * The things passed on are things the scans have emitted: of each device's own endpoint and
   * unit, and resting on registers that are a common model, models and the end model in a row.
   */
  lemma PassedOnIsSound(options: Options, moves: seq<Move>, i: nat)
    requires ValidOptions(options)
    requires R.Next(i) in Run(options, Fresh, moves).run.trace
    ensures var net := Run(options, Fresh, moves);
            && i < |net.works|
            && var device, scan := net.works[i].device, net.works[i].scan;
               && scan.trace == [S.Next(S.ThingOf(device.endpoint, device.unit, scan.common, scan.models)), S.Completed]
               && scan.received == scan.common + P.PrintModels(scan.models) + P.EndModel
               && P.WellFormed(ScanOptions(options, device), scan.common, scan.models)
  {
    hide Run, M.Invariant;
    Reachable(options, moves);
    var net := Run(options, Fresh, moves);
    ToldIsOpened(net.run, i);
    assert WorkFits(options, net.run, i, net.works[i]) && ThingFits(net.run, i, net.works[i]);
    EmittedIsSound(options, net.works[i]);
  }

  lemma ToldIsOpened(run: R.State, i: nat)
    requires R.Invariant(run) && R.Next(i) in run.trace
    ensures i < |run.endpoints|
  {
    var k :| 0 <= k < |run.trace| && run.trace[k] == R.Next(i);
  }

  lemma EmittedIsSound(options: Options, work: Work)
    requires P.Invariant(ScanOptions(options, work.device), work.scan) && DeviceFits(work) && Emits(work.scan)
    ensures var device, scan := work.device, work.scan;
            && scan.trace == [S.Next(S.ThingOf(device.endpoint, device.unit, scan.common, scan.models)), S.Completed]
            && scan.received == scan.common + P.PrintModels(scan.models) + P.EndModel
            && P.WellFormed(ScanOptions(options, device), scan.common, scan.models)
  {
    hide P.ProbesFit, P.Tiled, P.WellFormed, S.ThingOf;
    var k :| 0 <= k < |work.scan.trace| && work.scan.trace[k].Next?;
    var thing :| work.scan.trace == [S.Next(thing), S.Completed] && P.Sound(ScanOptions(options, work.device), work.scan, thing);
  }

  /** Until it is stopped or errs, the discovery has passed on the thing of every scan that has emitted one. */
  lemma NothingIsLost(options: Options, moves: seq<Move>, i: nat)
    requires ValidOptions(options)
    requires var net := Run(options, Fresh, moves); !net.run.stopping && i < |net.works|
    ensures var net := Run(options, Fresh, moves);
            R.Next(i) in net.run.trace <==> Emits(net.works[i].scan)
  {
    hide Run, M.Invariant, R.Invariant;
    Reachable(options, moves);
    var net := Run(options, Fresh, moves);
    assert ThingFits(net.run, i, net.works[i]);
  }

  // The stop

  /** A scan that has been cancelled in front of its start. */
  predicate Posted(scan: S.Scan) {
    scan.phase.Unstarted? && scan.cancelled
  }

  predicate StaysPut(before: S.Scan, after: S.Scan) {
    && (before.phase.Finished? ==> after.phase.Finished?)
    && (Posted(before) ==> Posted(after))
  }

  /** What no telling takes back. */
  ghost predicate Onward(before: Net, after: Net) {
    && R.Invariant(after.run)
    && (before.run.listened ==> after.run.listened)
    && (R.Over(before.run) ==> R.Over(after.run) && |after.works| == |before.works| && after.refused == before.refused)
    && |before.works| <= |after.works|
    && forall k :: 0 <= k < |before.works| ==> StaysPut(before.works[k].scan, after.works[k].scan)
  }

  lemma OnwardTwice(first: Net, second: Net, third: Net)
    requires Onward(first, second) && Onward(second, third)
    ensures Onward(first, third)
  {
    hide R.Over, R.Invariant, Posted;
    forall k | 0 <= k < |first.works|
      ensures StaysPut(first.works[k].scan, third.works[k].scan)
    {
      assert StaysPut(first.works[k].scan, second.works[k].scan) && StaysPut(second.works[k].scan, third.works[k].scan);
    }
  }

  lemma CancelStaysPut(options: Options, work: Work)
    ensures StaysPut(work.scan, Moved(options, work, S.Cancel).scan)
  {
  }

  lemma TellOnward(options: Options, net: Net, event: R.Event)
    requires R.Invariant(net.run)
    ensures Onward(net, Tell(options, net, event))
  {
    var world := WorldOf(net.works);
    R.StepKeepsInvariant(net.run, event, world);
    StepMoves(net.run, event, world, 0);
    StepEndings(net.run, event, world);
    hide R.Step, R.Invariant, Moved, StaysPut;
    var after := Tell(options, net, event);
    forall k | 0 <= k < |net.works|
      ensures StaysPut(net.works[k].scan, after.works[k].scan)
    {
      CancelStaysPut(options, net.works[k]);
      NothingStaysPut(net.works[k].scan);
    }
  }

  lemma NothingStaysPut(scan: S.Scan)
    ensures StaysPut(scan, scan)
  {
  }

  lemma HearOnward(options: Options, net: Net, opens: bool, signal: M.Signal)
    requires R.Invariant(net.run)
    ensures Onward(net, Hear(options, net, opens, signal))
  {
    hide R.Step, R.Invariant, Tell, StaysPut;
    var event := match signal
                 case Identified(job) => R.Candidate(opens)
                 case Completed => R.UpstreamCompleted
                 case Errored => R.UpstreamFailed;
    TellOnward(options, net, event);
  }

  lemma {:induction false} HearAllOnward(options: Options, net: Net, opens: bool, signals: seq<M.Signal>)
    requires R.Invariant(net.run)
    ensures Onward(net, HearAll(options, net, opens, signals)) && HearAll(options, net, opens, signals).pump == net.pump
    decreases |signals|
  {
    hide Hear, R.Invariant, StaysPut;
    if signals == [] {
      StandsOnward(net);
    } else {
      var next := Hear(options, net, opens, signals[0]);
      HearOnward(options, net, opens, signals[0]);
      HearLeavesPump(options, net, opens, signals[0]);
      HearAllOnward(options, next, opens, signals[1..]);
      OnwardTwice(net, next, HearAll(options, net, opens, signals));
    }
  }

  lemma StandsOnward(net: Net)
    requires R.Invariant(net.run)
    ensures Onward(net, net)
  {
  }

  lemma {:induction false} PassAllOnward(options: Options, net: Net, i: nat, emissions: seq<S.Emission>)
    requires R.Invariant(net.run)
    ensures Onward(net, PassAll(options, net, i, emissions))
    decreases |emissions|
  {
    hide Tell, R.Invariant, StaysPut;
    if emissions == [] {
      StandsOnward(net);
    } else {
      var next := Tell(options, net, EventOf(i, emissions[0]));
      TellOnward(options, net, EventOf(i, emissions[0]));
      PassAllOnward(options, next, i, emissions[1..]);
      OnwardTwice(net, next, PassAll(options, net, i, emissions));
    }
  }

  /** What becomes of a scan that has ended, or is still to start after a stop. */
  predicate MovesOn(before: S.Scan, after: S.Scan, begun: bool) {
    && (before.phase.Finished? ==> after.phase.Finished?)
    && (Posted(before) ==> if begun then after.phase.Finished? else Posted(after))
  }

  predicate Starts(move: Move, k: nat) {
    move.Begin? && move.i == k
  }

  ghost predicate StepsOn(before: Net, after: Net, move: Move) {
    && R.Invariant(after.run)
    && (before.run.listened ==> after.run.listened)
    && (R.Over(before.run) ==> R.Over(after.run) && |after.works| == |before.works| && after.refused == before.refused)
    && |before.works| <= |after.works|
    && forall k :: 0 <= k < |before.works| ==> MovesOn(before.works[k].scan, after.works[k].scan, Starts(move, k))
  }

  lemma ScanMovesOn(options: Options, work: Work, event: S.Event)
    requires !event.Cancel?
    ensures MovesOn(work.scan, Moved(options, work, event).scan, event.Start?)
  {
  }

  lemma MoveScanStepsOn(options: Options, net: Net, i: nat, event: S.Event, move: Move)
    requires R.Invariant(net.run) && i < |net.works| && !event.Cancel?
    requires forall k: nat :: Starts(move, k) <==> k == i && event.Start?
    ensures StepsOn(net, MoveScan(options, net, i, event), move)
  {
    hide PassAll, R.Over, R.Invariant, Moved, Starts;
    var work := Moved(options, net.works[i], event);
    var base := net.(works := net.works[i := work]);
    var after := MoveScan(options, net, i, event);
    PassAllOnward(options, base, i, Since(net.works[i].scan.trace, work.scan.trace));
    forall k | 0 <= k < |net.works|
      ensures MovesOn(net.works[k].scan, after.works[k].scan, Starts(move, k))
    {
      assert StaysPut(base.works[k].scan, after.works[k].scan);
      if k == i {
        ScanMovesOn(options, net.works[i], event);
      }
    }
  }

  lemma OnwardStepsOn(before: Net, after: Net, move: Move)
    requires Onward(before, after) && !move.Begin?
    ensures StepsOn(before, after, move)
  {
    hide R.Over, R.Invariant;
    forall k | 0 <= k < |before.works|
      ensures MovesOn(before.works[k].scan, after.works[k].scan, Starts(move, k))
    {
      assert StaysPut(before.works[k].scan, after.works[k].scan);
    }
  }

  lemma StepStepsOn(options: Options, net: Net, move: Move)
    requires R.Invariant(net.run)
    ensures StepsOn(net, Step(options, net, move), move)
  {
    hide Tell, MoveScan, HearAll, R.Invariant, StepsOn, Onward, M.Step;
    match move
    case Enter =>
      TellOnward(options, net, R.Enter);
      OnwardStepsOn(net, Step(options, net, move), move);
    case Stop =>
      TellOnward(options, net, R.Stop);
      OnwardStepsOn(net, Step(options, net, move), move);
    case SessionLost(i) =>
      TellOnward(options, net, R.SessionClosed(i));
      OnwardStepsOn(net, Step(options, net, move), move);
    case Pump(event, opens) =>
      PumpStepsOn(options, net, event, opens);
    case Begin(i, closed) =>
      BeginStepsOn(options, net, i, closed);
    case Answer(i, registers, closed) =>
      if i < |net.works| {
        MoveScanStepsOn(options, net, i, AnswerOf(net, i, registers, closed), move);
      } else {
        StandsOnward(net);
        OnwardStepsOn(net, net, move);
      }
  }

  lemma PumpStepsOn(options: Options, net: Net, event: M.Event, opens: bool)
    requires R.Invariant(net.run)
    ensures StepsOn(net, Step(options, net, Pump(event, opens)), Pump(event, opens))
  {
    var pump := M.Step(options.modbus, net.pump, event);
    var heard := net.(pump := pump);
    HearAllOnward(options, heard, opens, Since(net.pump.trace, pump.trace));
    StandsOnward(net);
    hide HearAll, R.Invariant, M.Step, StaysPut, R.Over;
    assert Onward(net, Step(options, net, Pump(event, opens)));
    OnwardStepsOn(net, Step(options, net, Pump(event, opens)), Pump(event, opens));
  }

  lemma BeginStepsOn(options: Options, net: Net, i: nat, closed: bool)
    requires R.Invariant(net.run)
    ensures StepsOn(net, Step(options, net, Begin(i, closed)), Begin(i, closed))
  {
    hide MoveScan, R.Invariant, Tell, R.Over;
    if i < |net.works| {
      var wanted := Wanted(options, net, i, closed);
      TellOnward(options, net, R.SessionWanted(i));
      StandsOnward(net);
      assert Onward(net, wanted);
      MoveScanStepsOn(options, wanted, i, StartOf(net, i, closed), Begin(i, closed));
      var after := Step(options, net, Begin(i, closed));
      assert StepsOn(wanted, after, Begin(i, closed));
      forall k | 0 <= k < |net.works|
        ensures MovesOn(net.works[k].scan, after.works[k].scan, Starts(Begin(i, closed), k))
      {
        assert StaysPut(net.works[k].scan, wanted.works[k].scan);
        assert MovesOn(wanted.works[k].scan, after.works[k].scan, Starts(Begin(i, closed), k));
      }
    }
  }

  predicate Begins(moves: seq<Move>, k: nat)
    decreases |moves|
  {
    moves != [] && (Starts(moves[0], k) || Begins(moves[1..], k))
  }

  ghost predicate RunsOn(before: Net, after: Net, moves: seq<Move>) {
    && R.Invariant(after.run)
    && (before.run.listened ==> after.run.listened)
    && (R.Over(before.run) ==> R.Over(after.run) && |after.works| == |before.works| && after.refused == before.refused)
    && |before.works| <= |after.works|
    && forall k :: 0 <= k < |before.works| ==> MovesOn(before.works[k].scan, after.works[k].scan, Begins(moves, k))
  }

  lemma {:induction false} RunRunsOn(options: Options, net: Net, moves: seq<Move>)
    requires R.Invariant(net.run)
    ensures RunsOn(net, Run(options, net, moves), moves)
    decreases |moves|
  {
    hide Step, R.Invariant, R.Over, Starts;
    var after := Run(options, net, moves);
    if moves != [] {
      var next := Step(options, net, moves[0]);
      StepStepsOn(options, net, moves[0]);
      RunRunsOn(options, next, moves[1..]);
      forall k | 0 <= k < |net.works|
        ensures MovesOn(net.works[k].scan, after.works[k].scan, Begins(moves, k))
      {
        assert MovesOn(net.works[k].scan, next.works[k].scan, Starts(moves[0], k));
        assert MovesOn(next.works[k].scan, after.works[k].scan, Begins(moves[1..], k));
      }
    }
  }

  function PumpEvents(moves: seq<Move>): seq<M.Event> {
    if moves == [] then [] else (if moves[0].Pump? then [moves[0].event] else []) + PumpEvents(moves[1..])
  }

  lemma StepOfPump(options: Options, net: Net, move: Move)
    requires R.Invariant(net.run) && net.run.listened
    ensures Step(options, net, move).pump == if move.Pump? then M.Step(options.modbus, net.pump, move.event) else net.pump
  {
    hide R.Invariant, M.Step, MoveScan, HearAll, Moved;
    match move
    case Pump(event, opens) =>
      var pump := M.Step(options.modbus, net.pump, event);
      HearAllOnward(options, net.(pump := pump), opens, Since(net.pump.trace, pump.trace));
    case Begin(i, closed) =>
      if i < |net.works| {
        ScanLeavesPump(options, Wanted(options, net, i, closed), i, StartOf(net, i, closed));
      }
    case Answer(i, registers, closed) =>
      if i < |net.works| {
        ScanLeavesPump(options, net, i, AnswerOf(net, i, registers, closed));
      }
    case _ =>
  }

  lemma {:induction false} RunOfPump(options: Options, net: Net, moves: seq<Move>)
    requires R.Invariant(net.run) && net.run.listened
    ensures Run(options, net, moves).pump == M.Run(options.modbus, net.pump, PumpEvents(moves))
    decreases |moves|
  {
    hide R.Invariant, M.Step, Step;
    if moves != [] {
      var next := Step(options, net, moves[0]);
      StepStepsOn(options, net, moves[0]);
      StepOfPump(options, net, moves[0]);
      RunOfPump(options, next, moves[1..]);
      if moves[0].Pump? {
        assert PumpEvents(moves)[0] == moves[0].event && PumpEvents(moves)[1..] == PumpEvents(moves[1..]);
      } else {
        assert [] + PumpEvents(moves[1..]) == PumpEvents(moves[1..]);
      }
    }
  }

  /** A Modbus discovery is complete exactly when it has told of an ending. */
  lemma EndingIsTold(options: M.Options, pump: M.State)
    requires M.Invariant(options, pump)
    ensures pump.completed <==> M.Completed in pump.trace || M.Errored in pump.trace
  {
    hide M.Conserved;
    if pump.completed {
      assert pump.trace[|pump.trace| - 1] in pump.trace;
    } else {
      forall signal | signal in pump.trace
        ensures !M.Terminal(signal)
      {
        var i :| 0 <= i < |pump.trace| && pump.trace[i] == signal;
      }
    }
  }

  lemma PumpStop(options: M.Options, pump: M.State, rest: seq<M.Event>)
    requires M.ValidOptions(options) && M.Invariant(options, pump) && pump.begun && !pump.stopped && !pump.completed
    requires pump.upstreamCompleted ==> !M.UpstreamEnds(rest)
    ensures M.Run(options, M.Step(options, pump, M.Stop), rest).completed <==> !pump.upstreamCompleted && M.UpstreamEnds(rest)
  {
    hide M.Conserved, M.UpstreamEnds;
    M.StepKeepsInvariant(options, pump, M.Stop);
    M.StoppedEnds(options, M.Step(options, pump, M.Stop), rest);
  }

  /** The scans a stop leaves to end later are those still to start. */
  lemma StopLeavesPosted(options: Options, net: Net, k: nat)
    requires ValidOptions(options) && Joined(options, net, net.pump.trace) && !R.Over(net.run) && k < |net.works|
    ensures var after := Step(options, net, Stop);
            k < |after.works|
            && if net.works[k].scan.phase.Unstarted? then Posted(after.works[k].scan) else after.works[k].scan.phase.Finished?
  {
    StepKeepsJoined(options, net, Stop);
    StepEndings(net.run, R.Stop, WorldOf(net.works));
    var after := Step(options, net, Stop);
    assert WorkFits(options, net.run, k, net.works[k]) && WorkFits(options, after.run, k, after.works[k]);
    CancelOfScan(options, net.works[k]);
    hide R.Step, S.Step, P.Invariant, R.Invariant, M.Invariant, DeviceFits, Emits, ThingFits;
  }

  /** What has happened behind a stop, over both discoveries and the scans. */
  lemma StoppedNetEnds(options: Options, net: Net, moves: seq<Move>)
    requires ValidOptions(options) && Joined(options, net, net.pump.trace) && net.run.listened && !R.Over(net.run)
    ensures var end := Run(options, Step(options, net, Stop), moves);
            end.run.terminal <==>
              || M.Errored in end.pump.trace
              || (M.Completed in end.pump.trace
                  && forall k :: 0 <= k < |net.works| && net.works[k].scan.phase.Unstarted? ==> Begins(moves, k))
  {
    hide R.Over, R.Invariant, Step, Run, M.Invariant, P.Invariant, WorkFits, ThingFits, S.Step, AllFinished, Begins;
    var stopped := Step(options, net, Stop);
    var end := Run(options, stopped, moves);
    StopsNet(options, net);
    StepKeepsJoined(options, net, Stop);
    RunKeepsJoined(options, stopped, moves);
    RunRunsOn(options, stopped, moves);
    PostedScansFinish(options, net, moves);
    if end.run.failing {
      FailingIsOver(end.run);
    } else {
      JoinedEnds(options, end);
    }
  }

  lemma FailingIsOver(run: R.State)
    requires R.Invariant(run) && run.failing
    ensures run.terminal
  {
  }

  lemma PostedScansFinish(options: Options, net: Net, moves: seq<Move>)
    requires ValidOptions(options) && Joined(options, net, net.pump.trace) && !R.Over(net.run)
    ensures AllFinished(Run(options, Step(options, net, Stop), moves).works) <==>
              forall k :: 0 <= k < |net.works| && net.works[k].scan.phase.Unstarted? ==> Begins(moves, k)
  {
    hide R.Over, R.Invariant, Step, Run, M.Invariant, P.Invariant, WorkFits, ThingFits, S.Step, Begins;
    var stopped := Step(options, net, Stop);
    var end := Run(options, stopped, moves);
    StopsNet(options, net);
    StepKeepsJoined(options, net, Stop);
    RunRunsOn(options, stopped, moves);
    forall k | 0 <= k < |net.works|
      ensures end.works[k].scan.phase.Finished? <==> !net.works[k].scan.phase.Unstarted? || Begins(moves, k)
    {
      StopLeavesPosted(options, net, k);
      assert MovesOn(stopped.works[k].scan, end.works[k].scan, Begins(moves, k));
    }
  }

  /**
   * A stop of a listening discovery ends it, at once or later, exactly when the Modbus discovery
   * fails, or it completes and every scan that was still to start has had its turn.
   */
  lemma StopEndsExactly(options: Options, moves: seq<Move>, rest: seq<Move>)
    requires ValidOptions(options)
    requires var net := Run(options, Fresh, moves); net.run.listened && !R.Over(net.run)
    ensures var net := Run(options, Fresh, moves);
            var end := Run(options, Step(options, net, Stop), rest);
            end.run.terminal <==>
              || M.Errored in end.pump.trace
              || (M.Completed in end.pump.trace
                  && forall k :: 0 <= k < |net.works| && net.works[k].scan.phase.Unstarted? ==> Begins(rest, k))
  {
    hide Run, Step;
    Reachable(options, moves);
    StoppedNetEnds(options, Run(options, Fresh, moves), rest);
  }

  lemma StopsNet(options: Options, net: Net)
    requires R.Invariant(net.run) && !R.Over(net.run)
    requires !net.run.failing ==> !net.refused
    ensures var stopped := Step(options, net, Stop);
            && R.Over(stopped.run) && !stopped.refused && stopped.pump == net.pump
            && |stopped.works| == |net.works| && (net.run.listened ==> stopped.run.listened)
  {
    StepEndings(net.run, R.Stop, WorldOf(net.works));
    StepMoves(net.run, R.Stop, WorldOf(net.works), 0);
    hide R.Step;
  }

  /**
   * A stop that the discovery passes on while the Modbus discovery is at work ends the discovery
   * exactly when the port scan had not completed before the Modbus discovery is stopped, and ends
   * afterwards, and then, unless it fails, every scan that was still to start has had its turn.
   */
  lemma StopEndsBothExactly(options: Options, moves: seq<Move>, before: seq<Move>, after: seq<Move>)
    requires ValidOptions(options)
    requires var net := Run(options, Fresh, moves); net.run.listened && !R.Over(net.run)
    requires var halted := Run(options, Step(options, Run(options, Fresh, moves), Stop), before);
             && halted.pump.begun && !halted.pump.stopped && !halted.pump.completed
             && (halted.pump.upstreamCompleted ==> !M.UpstreamEnds(PumpEvents(after)))
    ensures var net := Run(options, Fresh, moves);
            var halted := Run(options, Step(options, net, Stop), before);
            var end := Run(options, Step(options, halted, Pump(M.Stop, false)), after);
            end.run.terminal <==>
              && !halted.pump.upstreamCompleted && M.UpstreamEnds(PumpEvents(after))
              && (|| M.Errored in end.pump.trace
                  || forall k :: 0 <= k < |net.works| && net.works[k].scan.phase.Unstarted? ==> Begins(before, k) || Begins(after, k))
  {
    hide Run, Step, R.Over, M.UpstreamEnds, M.Run, M.Step, M.Invariant, R.Invariant, WorkFits, ThingFits;
    var net := Run(options, Fresh, moves);
    var stopped := Step(options, net, Stop);
    var halted := Run(options, stopped, before);
    var posted := Pump(M.Stop, false);
    var cut := Step(options, halted, posted);
    var end := Run(options, cut, after);
    Reachable(options, moves);
    StoppedNetEnds(options, net, before + [posted] + after);
    BehindStop(options, net, before, after);
    PumpStop(options.modbus, halted.pump, PumpEvents(after));
    EndingIsTold(options.modbus, end.pump);
    forall k: nat
      ensures Begins(before + [posted] + after, k) <==> Begins(before, k) || Begins(after, k)
    {
      BeginsAppend(before, posted, after, k);
    }
  }

  /** The parts of a run behind a stop. */
  lemma BehindStop(options: Options, net: Net, before: seq<Move>, after: seq<Move>)
    requires ValidOptions(options) && Joined(options, net, net.pump.trace) && net.run.listened && !R.Over(net.run)
    ensures var stopped := Step(options, net, Stop);
            var halted := Run(options, stopped, before);
            var cut := Step(options, halted, Pump(M.Stop, false));
            var end := Run(options, cut, after);
            && end == Run(options, stopped, before + [Pump(M.Stop, false)] + after)
            && M.Invariant(options.modbus, halted.pump) && M.Invariant(options.modbus, end.pump)
            && end.pump == M.Run(options.modbus, M.Step(options.modbus, halted.pump, M.Stop), PumpEvents(after))
  {
    hide Run, Step, M.Run, M.Step, M.Invariant, R.Invariant, WorkFits, ThingFits, P.Invariant;
    var posted := Pump(M.Stop, false);
    var stopped := Step(options, net, Stop);
    var halted := Run(options, stopped, before);
    var cut := Step(options, halted, posted);
    StopsNet(options, net);
    StepKeepsJoined(options, net, Stop);
    RunKeepsJoined(options, stopped, before);
    RunRunsOn(options, stopped, before);
    StepKeepsJoined(options, halted, posted);
    StepStepsOn(options, halted, posted);
    StepOfPump(options, halted, posted);
    RunKeepsJoined(options, cut, after);
    RunOfPump(options, cut, after);
    RunsInTurn(options, stopped, before, posted, after);
  }

  lemma {:induction false} RunsInTurn(options: Options, net: Net, before: seq<Move>, move: Move, after: seq<Move>)
    ensures Run(options, net, before + [move] + after) == Run(options, Step(options, Run(options, net, before), move), after)
    decreases |before|
  {
    hide Step;
    var all := before + [move] + after;
    if before == [] {
      assert all[0] == move && all[1..] == after;
    } else {
      assert all[0] == before[0] && all[1..] == before[1..] + [move] + after;
      RunsInTurn(options, Step(options, net, before[0]), before[1..], move, after);
    }
  }

  lemma {:induction false} BeginsAppend(before: seq<Move>, move: Move, after: seq<Move>, k: nat)
    requires !Starts(move, k)
    ensures Begins(before + [move] + after, k) <==> Begins(before, k) || Begins(after, k)
    decreases |before|
  {
    var all := before + [move] + after;
    if before == [] {
      assert all[0] == move && all[1..] == after;
    } else {
      assert all[0] == before[0] && all[1..] == before[1..] + [move] + after;
      BeginsAppend(before[1..], move, after, k);
    }
  }

  lemma SilentPump(options: Options, net: Net, event: M.Event)
    requires net.run.listened && M.Step(options.modbus, net.pump, event).trace == net.pump.trace
    ensures Step(options, net, Pump(event, true)) == net.(pump := M.Step(options.modbus, net.pump, event))
  {
    hide M.Step;
    var heard := net.(pump := M.Step(options.modbus, net.pump, event));
    assert Since(net.pump.trace, heard.pump.trace) == [];
    SilenceIsNotHeard(options, heard, true);
  }

  lemma EntersLoop(options: Options)
    ensures var net := Step(options, Fresh, Enter);
            net.pump == M.Initial && net.run.listened && !R.Over(net.run)
  {
  }

  /** An open port and the end of the port scan leave an identifier at work, and nothing said. */
  lemma ThreeSilentSteps(options: M.Options, target: M.OpenPort)
    requires M.ValidOptions(options)
    ensures var started := M.Step(options, M.Initial, M.Start);
            var found := M.Step(options, started, M.Candidate(target));
            var scanned := M.Step(options, found, M.UpstreamCompleted);
            && started.trace == found.trace == scanned.trace == []
            && scanned.begun && scanned.upstreamCompleted && !scanned.stopped && !scanned.completed
  {
    M.FirstJobStarts(options, target);
    var started := M.Step(options, M.Initial, M.Start);
    FoundSilently(options, started, target);
  }

  lemma FoundSilently(options: M.Options, pump: M.State, target: M.OpenPort)
    requires !pump.upstreamCompleted
    ensures M.Step(options, pump, M.Candidate(target)).trace == pump.trace
  {
  }

  lemma RunOfFour(options: Options, net: Net, a: Move, b: Move, c: Move, d: Move)
    ensures Run(options, net, [a, b, c, d]) == Step(options, Step(options, Step(options, Step(options, net, a), b), c), d)
  {
    hide Step;
    var s1 := Step(options, net, a);
    var s2 := Step(options, s1, b);
    var s3 := Step(options, s2, c);
    assert [a, b, c, d][1..] == [b, c, d] && [b, c, d][1..] == [c, d] && [c, d][1..] == [d] && [d][1..] == [];
    assert Run(options, s3, [d]) == Step(options, s3, d);
    assert Run(options, s2, [c, d]) == Run(options, s3, [d]);
    assert Run(options, s1, [b, c, d]) == Run(options, s2, [c, d]);
  }

  lemma PumpAtWork(options: Options, target: M.OpenPort)
    requires ValidOptions(options)
    ensures var moves := [Enter, Pump(M.Start, true), Pump(M.Candidate(target), true), Pump(M.UpstreamCompleted, true)];
            var net := Run(options, Fresh, moves);
            && net.run.listened && !R.Over(net.run)
            && net.pump.begun && net.pump.upstreamCompleted && !net.pump.stopped && !net.pump.completed
  {
    hide Run, Step, M.Step, R.Over;
    EntersLoop(options);
    var net := Step(options, Fresh, Enter);
    var started := net.(pump := M.Step(options.modbus, net.pump, M.Start));
    var found := started.(pump := M.Step(options.modbus, started.pump, M.Candidate(target)));
    ThreeSilentSteps(options.modbus, target);
    SilentPump(options, net, M.Start);
    SilentPump(options, started, M.Candidate(target));
    SilentPump(options, found, M.UpstreamCompleted);
    RunOfFour(options, Fresh, Enter, Pump(M.Start, true), Pump(M.Candidate(target), true), Pump(M.UpstreamCompleted, true));
  }

  /** One device's port, the end of the port scan, and then a stop: neither discovery ever ends. */
  lemma StrandedPumpStrandsDiscovery(options: Options, target: M.OpenPort, after: seq<Move>)
    requires ValidOptions(options) && !M.UpstreamEnds(PumpEvents(after))
    ensures var moves := [Enter, Pump(M.Start, true), Pump(M.Candidate(target), true), Pump(M.UpstreamCompleted, true)];
            var stopped := Step(options, Step(options, Run(options, Fresh, moves), Stop), Pump(M.Stop, false));
            !Run(options, stopped, after).run.terminal && !Run(options, stopped, after).pump.completed
  {
    var moves := [Enter, Pump(M.Start, true), Pump(M.Candidate(target), true), Pump(M.UpstreamCompleted, true)];
    var net := Run(options, Fresh, moves);
    PumpAtWork(options, target);
    Reachable(options, moves);
    hide Run, Step, R.Over, M.UpstreamEnds, M.Run, M.Step, M.Invariant, R.Invariant, WorkFits, ThingFits;
    var stopped := Step(options, net, Stop);
    RunOfNothing(options, stopped);
    StopsNet(options, net);
    StopEndsBothExactly(options, moves, [], after);
    BehindStop(options, net, [], after);
    PumpStop(options.modbus, stopped.pump, PumpEvents(after));
  }

  lemma RunOfNothing(options: Options, net: Net)
    ensures Run(options, net, []) == net
  {
  }
}
