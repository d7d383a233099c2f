/** The promises of a SunSpec scan, for every run and every sequence of replies. */
module ScanTheorems {
  import opened Bytes
  import opened ScanSpec
  import opened ScanProperties

  lemma Reachable(options: Options, events: seq<Event>)
    requires ValidOptions(options)
    ensures Invariant(options, Run(options, Initial, events))
  {
    RunKeepsInvariant(options, Initial, events);
  }

  /** Some run from the start leads here. */
  ghost predicate Reached(options: Options, s: Scan) {
    exists events :: s == Run(options, Initial, events)
  }

  lemma ReachedKeeps(options: Options, s: Scan)
    requires ValidOptions(options) && Reached(options, s)
    ensures Invariant(options, s)
  {
    var events :| s == Run(options, Initial, events);
    Reachable(options, events);
  }

  lemma ReachedStep(options: Options, s: Scan, event: Event)
    requires Reached(options, s)
    ensures Reached(options, Step(options, s, event))
  {
    var events :| s == Run(options, Initial, events);
    RunAppend(options, Initial, events, event);
    assert Step(options, s, event) == Run(options, Initial, events + [event]);
  }

  lemma ReachedInitially(options: Options)
    ensures Reached(options, Initial)
  {
    assert Run(options, Initial, []) == Initial;
  }

  lemma {:induction false} RunAppend(options: Options, s: Scan, events: seq<Event>, event: Event)
    ensures Run(options, s, events + [event]) == Step(options, Run(options, s, events), event)
    decreases |events|
  {
    if events == [] {
      assert ([] + [event])[1..] == [];
      assert Run(options, Step(options, s, event), []) == Step(options, s, event);
    } else {
      assert (events + [event])[1..] == events[1..] + [event];
      RunAppend(options, Step(options, s, events[0]), events[1..], event);
    }
  }

  // One terminal event, and nothing after it

  predicate TerminalTrace(trace: seq<Emission>) {
    || trace == [Errored]
    || trace == [Completed]
    || (|trace| == 2 && trace[0].Next? && trace[1].Completed?)
  }

  /** A scan has said nothing until it ends, and then exactly one of the three endings. */
  lemma EndsOnce(options: Options, events: seq<Event>)
    requires ValidOptions(options)
    ensures var s := Run(options, Initial, events);
            if s.phase.Finished? then TerminalTrace(s.trace) else s.trace == []
  {
    Reachable(options, events);
  }

  /** Once a scan has ended nothing more is emitted and no read is issued. */
  lemma {:induction false} EndIsFinal(options: Options, s: Scan, events: seq<Event>)
    requires s.phase.Finished?
    ensures var after := Run(options, s, events);
            after.(cancelled := s.cancelled) == s
    decreases |events|
  {
    if events != [] {
      EndIsFinal(options, Step(options, s, events[0]), events[1..]);
    }
  }

  /** A cancelled scan that had not ended completes: at once, or before its start not until it starts. */
  lemma CancelCompletes(options: Options, events: seq<Event>, session: Option<ModbusEndpoint>, env: Env)
    requires ValidOptions(options)
    ensures var s := Run(options, Initial, events);
            var after := Step(options, s, Cancel);
            && (s.phase.Probing? || s.phase.Walking? ==> after.trace == [Completed])
            && (s.phase.Unstarted? ==> after.trace == [] && Step(options, after, Start(session, env)).trace == [Completed])
  {
    Reachable(options, events);
  }

  // Errors

  /** From one state to the other the scan has not erred. */
  predicate EndsWell(s: Scan, after: Scan) {
    Errored in after.trace <==> Errored in s.trace
  }

  lemma OnHeaderEndsWell(options: Options, s: Scan, header: seq<u16>)
    ensures EndsWell(s, OnHeader(options, s, header))
  {
    hide InSpan, End, Instances, ThingOf;
  }

  lemma OnChunkEndsWell(options: Options, s: Scan, registers: seq<u16>)
    requires s.phase.Walking?
    ensures EndsWell(s, OnChunk(options, s, registers))
  {
    hide InSpan, End, OnHeader;
    OnHeaderEndsWell(options, s.(received := s.received + registers), s.phase.reader.registers + registers);
  }

  /** Why a scan may err as it starts: no session, or a closed one that cannot be replaced. */
  predicate CannotStart(event: Event)
    requires event.Start?
  {
    event.session.None? || (event.env.sessionClosed && event.env.replacement.None?)
  }

  /** A scan of one unit errs in exactly one step: its start, when no open session is to be had. */
  lemma FixedUnitErrsOnlyAtStart(options: Options, s: Scan, event: Event)
    requires options.fixedUnit.Some? && s.trace == []
    ensures Errored in Step(options, s, event).trace <==>
              event.Start? && s.phase.Unstarted? && !s.cancelled && CannotStart(event)
  {
    hide OnChunk, Fetch;
    if event.Reply? && s.phase.Walking? {
      OnChunkEndsWell(options, s, event.registers);
    }
    if event.Reply? && s.phase.Probing? && IsHeader(event.registers) {
      FetchEndsWell(s.(selected := Some(UnitAt(options, s.phase.index))), event.registers[3]);
    }
  }

  lemma FetchEndsWell(s: Scan, length: nat)
    requires length > 0
    ensures EndsWell(s, Fetch(s, CommonModel(length), COMMON, length))
  {
  }

  /** A scan of one unit that finds an open session at its start never errs. */
  lemma {:induction false} FixedUnitNeverErrs(options: Options, s: Scan, events: seq<Event>)
    requires ValidOptions(options) && options.fixedUnit.Some? && Invariant(options, s) && Errored !in s.trace
    requires forall event :: event in events && event.Start? ==> !CannotStart(event)
    ensures Errored !in Run(options, s, events).trace
    decreases |events|
  {
    hide Step, Invariant, CannotStart;
    if events != [] {
      TraceOfUnfinished(options, s);
      if s.phase.Finished? {
        EndIsFinal(options, s, events);
      } else {
        FixedUnitErrsOnlyAtStart(options, s, events[0]);
        StepKeepsInvariant(options, s, events[0]);
        FixedUnitNeverErrs(options, Step(options, s, events[0]), events[1..]);
      }
    }
  }

  lemma TraceOfUnfinished(options: Options, s: Scan)
    requires Invariant(options, s)
    ensures !s.phase.Finished? ==> s.trace == []
  {
  }

  /** A header is the letters "SunS", model id 1 and a length of 65 or 66, and nothing else is one. */
  lemma HeaderIsMarker(registers: seq<u16>)
    ensures IsHeader(registers) <==>
              || Serialize(registers) == [0x53, 0x75, 0x6e, 0x53, 0, 1, 0, 65]
              || Serialize(registers) == [0x53, 0x75, 0x6e, 0x53, 0, 1, 0, 66]
  {
    if IsHeader(registers) {
      assert registers == [0x5375, 0x6e53, 1, registers[3]];
    }
    if |registers| == 4 {
      BothBytes(registers, 0);
      BothBytes(registers, 1);
      BothBytes(registers, 2);
      BothBytes(registers, 3);
    }
    assert |Serialize(registers)| == 8 <==> |registers| == 4;
  }

  // Soundness

  function CountId(locations: seq<Location>, id: u16): nat {
    if locations == [] then 0
    else CountId(locations[..|locations| - 1], id) + if locations[|locations| - 1].id == id then 1 else 0
  }

  /** This location follows the one before, and is numbered among those of its id. */
  ghost predicate Continues(locations: seq<Location>, i: nat)
    requires 0 < i < |locations|
  {
    && locations[i].address == locations[i - 1].address + locations[i - 1].length + 2
    && locations[i].instance == CountId(locations[..i], locations[i].id)
  }

  ghost predicate Linked(locations: seq<Location>) {
    forall i :: 0 < i < |locations| ==> Continues(locations, i)
  }

  lemma {:induction false} InstancesCount(common: seq<u16>, models: seq<Model>, id: u16)
    ensures Instances(models, id) == CountId(Locations(common, models), id) <= |models| + 1
  {
    var locations := Locations(common, models);
    if models == [] {
      assert locations[..0] == [];
      assert CountId(locations[..0], id) == 0;
    } else {
      InstancesCount(common, models[..|models| - 1], id);
      assert locations[..|models|] == Locations(common, models[..|models| - 1]);
    }
  }

  /** A chain that fits the address space has room for few enough models that no cast loses bits. */
  lemma {:induction false} ChainFits(common: seq<u16>, models: seq<Model>)
    requires |common| >= 65 && End(common, models) <= ADDRESSES
    ensures COMMON + |common| + 2 * |models| <= End(common, models)
    ensures |models| <= 12733
    ensures forall i :: 0 <= i < |models| ==> |models[i].payload| < 0x1_0000 - COMMON
  {
    if models != [] {
      ChainFits(common, models[..|models| - 1]);
    }
  }

  lemma LinkedAppend(locations: seq<Location>, next: Location)
    requires Linked(locations)
    requires locations != [] ==>
               var last := locations[|locations| - 1];
               next.address == last.address + last.length + 2 && next.instance == CountId(locations, next.id)
    ensures Linked(locations + [next])
  {
    hide CountId;
    var longer := locations + [next];
    forall i | 0 < i < |longer|
      ensures Continues(longer, i)
    {
      if i == |locations| {
        assert longer[..i] == locations;
      } else {
        assert Continues(locations, i) && longer[..i] == locations[..i];
      }
    }
  }

  /** No cast of a location that fits the address space loses bits. */
  lemma LastLocation(common: seq<u16>, models: seq<Model>)
    requires |common| >= 65 && models != [] && End(common, models) < ADDRESSES
    ensures var earlier, last := models[..|models| - 1], models[|models| - 1];
            && Instances(earlier, last.id) <= 12733
            && End(common, earlier) + 2 + |last.payload| < ADDRESSES
            && Locations(common, models) == Locations(common, earlier)
              + [Location(last.id, Instances(earlier, last.id), End(common, earlier) + 2, |last.payload|)]
  {
    var earlier, last := models[..|models| - 1], models[|models| - 1];
    ChainFits(common, models);
    InstancesCount(common, earlier, last.id);
    assert Instances(earlier, last.id) <= 12733;
    assert End(common, earlier) + 2 + |last.payload| <= ADDRESSES;
  }

  /** The locations start behind the marker, hang together, and end where the chain ends. */
  ghost predicate Chained(locations: seq<Location>, common: seq<u16>, end: nat) {
    && locations != []
    && locations[0] == Location(1, 0, 40004, Cast16(|common|))
    && Linked(locations)
    && locations[|locations| - 1].address + locations[|locations| - 1].length == end
  }

  lemma ChainedAppend(locations: seq<Location>, common: seq<u16>, end: nat, next: Location)
    requires Chained(locations, common, end)
    requires next.address == end + 2 && next.instance == CountId(locations, next.id)
    ensures Chained(locations + [next], common, next.address + next.length)
  {
    LinkedAppend(locations, next);
  }

  lemma {:induction false} LocationsChained(common: seq<u16>, models: seq<Model>)
    requires 65 <= |common| <= 66 && End(common, models) < ADDRESSES
    ensures Chained(Locations(common, models), common, End(common, models))
    decreases |models|
  {
    if models == [] {
      assert Locations(common, models) == [Location(1, 0, 40004, |common|)];
    } else {
      hide Chained, CountId, Instances;
      var earlier, last := models[..|models| - 1], models[|models| - 1];
      LocationsChained(common, earlier);
      InstancesCount(common, earlier, last.id);
      LastLocation(common, models);
      ChainedAppend(Locations(common, earlier), common, End(common, earlier),
        Location(last.id, Instances(earlier, last.id), End(common, earlier) + 2, |last.payload|));
    }
  }

  /**
   * Whatever the devices reply, a thing is emitted only if the registers received from register
   * 40004 on are a common model, well-formed models and the end model in a row, and the thing's
   * unit, strings and locations are those.
   */
  lemma EmissionIsSound(options: Options, events: seq<Event>, thing: Thing)
    requires ValidOptions(options)
    requires Next(thing) in Run(options, Initial, events).trace
    ensures var s := Run(options, Initial, events);
            && s.received == s.common + PrintModels(s.models) + EndModel
            && WellFormed(options, s.common, s.models)
            && s.endpoint == Some(thing.endpoint) && s.selected == Some(thing.unit)
            && thing == ThingOf(thing.endpoint, thing.unit, s.common, s.models)
            && |thing.locations| <= options.maxModels
            && Chained(thing.locations, s.common, COMMON + |s.common + PrintModels(s.models)|)
  {
    var s := Run(options, Initial, events);
    Reachable(options, events);
    assert Sound(options, s, thing);
    PrintedLength(s.common, s.models);
    LocationsChained(s.common, s.models);
  }

  // The session in use

  /** The session in use after an event that leaves the scan probing. */
  function GivenBy(before: Option<ModbusEndpoint>, event: Event): Option<ModbusEndpoint> {
    match event
    case Start(session, env) => if before.Some? then before else if env.sessionClosed then env.replacement else session
    case Reply(_, env) => if before.Some? && env.sessionClosed then env.replacement else before
    case Failure(env) => if before.Some? && env.sessionClosed then env.replacement else before
    case Cancel => before
  }

  /** The endpoint of the session given last: the one the scan starts with, or its latest replacement. */
  function SessionGiven(events: seq<Event>): Option<ModbusEndpoint> {
    if events == [] then None else GivenBy(SessionGiven(events[..|events| - 1]), events[|events| - 1])
  }

  /** The header was accepted at this event, over the session given last before it. */
  ghost predicate AcceptedAt(options: Options, events: seq<Event>, k: nat, endpoint: ModbusEndpoint, unit: byte) {
    && k < |events| && events[k].Reply? && IsHeader(events[k].registers)
    && SessionGiven(events[..k]) == Some(endpoint)
    && var s := Run(options, Initial, events[..k]);
       s.phase.Probing? && unit == UnitAt(options, s.phase.index)
  }

  /** A scan that has accepted a header keeps its session and its unit. */
  lemma WalkKeepsSession(options: Options, s: Scan, event: Event)
    requires Invariant(options, s) && s.selected.Some?
    ensures Step(options, s, event).selected == s.selected && Step(options, s, event).endpoint == s.endpoint
  {
    hide InSpan, End, ThingOf, Instances, TraceFits, ProbesFit, Tiled, ReaderFits, GoalFits;
  }

  function InUseByProbes(s: Scan): Option<ModbusEndpoint> {
    if s.phase.Probing? then s.endpoint else None
  }

  lemma WalkNeverProbes(options: Options, s: Scan, registers: seq<u16>)
    requires s.phase.Walking?
    ensures OnChunk(options, s, registers).phase.Walking? || OnChunk(options, s, registers).phase.Finished?
  {
    hide InSpan, End, ThingOf, Instances;
  }

  /** A step leads to the probes only from a scan that is unstarted or probing, by what it gives. */
  lemma StepGives(options: Options, s: Scan, event: Event)
    requires Invariant(options, s)
    requires Step(options, s, event).phase.Probing? || Step(options, s, event).phase.Unstarted?
    ensures s.phase.Probing? || s.phase.Unstarted?
    ensures InUseByProbes(Step(options, s, event)) == GivenBy(InUseByProbes(s), event)
  {
    hide InSpan, End, TraceFits, ProbesFit, Tiled, ReaderFits, GoalFits, UnitAt, UnitIds, OnChunk, IsHeader;
    if s.phase.Walking? && event.Reply? {
      WalkNeverProbes(options, s, event.registers);
    }
  }

  /** Each probe is made over the session given last. */
  lemma {:induction false} ProbesOverSessionGiven(options: Options, events: seq<Event>)
    requires ValidOptions(options)
    requires Run(options, Initial, events).phase.Probing? || Run(options, Initial, events).phase.Unstarted?
    ensures SessionGiven(events) == InUseByProbes(Run(options, Initial, events))
  {
    hide Step, Invariant, GivenBy;
    if events != [] {
      var before := events[..|events| - 1];
      assert events == before + [events[|before|]];
      RunAppend(options, Initial, before, events[|before|]);
      Reachable(options, before);
      StepGives(options, Run(options, Initial, before), events[|before|]);
      ProbesOverSessionGiven(options, before);
    }
  }

  lemma {:induction false} SelectedOverSessionGiven(options: Options, events: seq<Event>) returns (k: nat)
    requires ValidOptions(options) && Run(options, Initial, events).selected.Some?
    ensures var s := Run(options, Initial, events);
            s.endpoint.Some? && AcceptedAt(options, events, k, s.endpoint.value, s.selected.value)
    decreases |events|
  {
    var before := events[..|events| - 1];
    var s := Run(options, Initial, before);
    assert events == before + [events[|before|]];
    RunAppend(options, Initial, before, events[|before|]);
    Reachable(options, before);
    if s.selected.Some? {
      WalkKeepsSession(options, s, events[|before|]);
      k := SelectedOverSessionGiven(options, before);
      assert before[..k] == events[..k];
    } else {
      k := |before|;
      SelectedByHeader(options, s, events[k]);
      ProbesOverSessionGiven(options, before);
    }
  }

  lemma SelectedByHeader(options: Options, s: Scan, event: Event)
    requires Invariant(options, s) && s.selected.None? && Step(options, s, event).selected.Some?
    ensures s.phase.Probing? && event.Reply? && IsHeader(event.registers)
    ensures Step(options, s, event).endpoint == s.endpoint && Step(options, s, event).selected == Some(UnitAt(options, s.phase.index))
  {
    hide InSpan, End, ThingOf, Instances, TraceFits, ProbesFit, Tiled, ReaderFits, GoalFits, IsHeader;
  }

  /**
   * A thing emitted carries the endpoint of the session given last before its header was accepted,
   * whatever is given or closed later, and the unit that was being probed.
   */
  lemma ThingOverSessionGiven(options: Options, events: seq<Event>, thing: Thing)
    requires ValidOptions(options) && Next(thing) in Run(options, Initial, events).trace
    ensures exists k :: AcceptedAt(options, events, k, thing.endpoint, thing.unit)
  {
    EmissionIsSound(options, events, thing);
    var k := SelectedOverSessionGiven(options, events);
  }

  // Addresses

  /**
   * The reads behind the header tile the registers from 40004 on: each starts where the one before
   * ended, asks the selected unit for 1 to 125 registers, and stays in the address space and the
   * allowed span.
   */
  lemma ChunksTile(options: Options, events: seq<Event>, i: nat)
    requires ValidOptions(options)
    requires i < |Run(options, Initial, events).chunks|
    ensures var s := Run(options, Initial, events);
            var chunk := s.chunks[i];
            && s.selected == Some(chunk.unit)
            && 1 <= chunk.count <= 125
            && chunk.address == (if i == 0 then 40004 else s.chunks[i - 1].address + s.chunks[i - 1].count)
            && 40000 <= chunk.address
            && chunk.address + chunk.count <= 65536
            && chunk.address + chunk.count <= 40000 + options.maxRegisterSpan
  {
    Reachable(options, events);
    var chunks := Run(options, Initial, events).chunks;
    assert i > 0 ==> chunks[..i][i - 1] == chunks[i - 1];
  }

  /**
   * The guards against addresses and counters out of range stop no reachable scan: the rest of
   * every logical read fits the address space, so that the next chunk is never refused, and the
   * 32-bit and instance guards hold.
   */
  lemma GuardsNeverStop(options: Options, events: seq<Event>, registers: seq<u16>, length: u16, id: u16)
    requires ValidOptions(options)
    requires Run(options, Initial, events).phase.Walking?
    ensures var s := Run(options, Initial, events);
            && s.phase.reader.next + s.phase.reader.remaining <= ADDRESSES
            && (|registers| == ChunkSize(s.phase.reader) < s.phase.reader.remaining ==>
                  OnChunk(options, s, registers).phase.Walking?)
            && (s.common != [] ==>
                  && End(s.common, s.models) + 2 + length <= 0xffff_ffff
                  && |s.models| <= 12733
                  && Instances(s.models, id) <= 0xffff)
  {
    Reachable(options, events);
    var s := Run(options, Initial, events);
    if |registers| == ChunkSize(s.phase.reader) {
      OnChunkCases(options, s, registers);
    }
    if s.common != [] {
      PrintedLength(s.common, s.models);
      ChainFits(s.common, s.models);
      InstancesCount(s.common, s.models, id);
    }
  }

  /** A logical read behind a passed span check is never refused at its start. */
  lemma CheckedReadStarts(options: Options, s: Scan, goal: Goal, address: nat, count: nat)
    requires InSpan(options, address, count) && count > 0
    ensures Fetch(s, goal, address, count).phase == Walking(goal, Reader(address, count, []))
  {
  }

  /** Every chunk size and every address handed to the session is a 16-bit value already. */
  lemma CastsLoseNothing(options: Options, events: seq<Event>, chunk: Read)
    requires ValidOptions(options)
    requires chunk in Run(options, Initial, events).chunks
    ensures Cast16(chunk.address) == chunk.address && Cast16(chunk.count) == chunk.count
  {
    var chunks := Run(options, Initial, events).chunks;
    var i :| 0 <= i < |chunks| && chunks[i] == chunk;
    ChunksTile(options, events, i);
  }

  // The sweep over the unit ids

  /** The place of a unit id in the probing order. */
  function PlaceOf(unit: byte): (place: nat)
    requires 1 <= unit <= 247
  {
    if 6 <= unit < 100 then unit + 16
    else if 101 <= unit < 126 then unit + 15
    else if 136 <= unit < 240 then unit + 5
    else if 130 <= unit < 136 then unit - 114
    else if 3 <= unit < 6 then unit + 7
    else if 242 <= unit < 245 then unit - 229
    else if unit == 1 then 0 else if unit == 240 then 1 else if unit == 126 then 2
    else if unit == 127 then 3 else if unit == 100 then 4 else if unit == 2 then 5
    else if unit == 247 then 6 else if unit == 241 then 7 else if unit == 128 then 8
    else if unit == 129 then 9 else unit
  }

  lemma UnitAtPlace(i: nat)
    requires i < 247
    ensures |UnitIds()| == 247
    ensures UnitIds()[i] ==
              if i < 16 then [1, 240, 126, 127, 100, 2, 247, 241, 128, 129, 3, 4, 5, 242, 243, 244][i]
              else if i < 22 then i + 114
              else if i < 116 then i - 16
              else if i < 141 then i - 15
              else if i < 245 then i - 5
              else i
  {
  }

  /** The probing order is a permutation of the unit ids 1 to 247. */
  lemma ProbingOrderIsPermutation()
    ensures |UnitIds()| == 247
    ensures forall i :: 0 <= i < |UnitIds()| ==> 1 <= UnitIds()[i] <= 247 && PlaceOf(UnitIds()[i]) == i
    ensures forall unit: byte :: 1 <= unit <= 247 ==>
              0 <= PlaceOf(unit) < |UnitIds()| && UnitIds()[PlaceOf(unit)] == unit
  {
    UnitAtPlace(0);
    forall i | 0 <= i < |UnitIds()|
      ensures 1 <= UnitIds()[i] <= 247 && PlaceOf(UnitIds()[i]) == i
    {
      UnitAtPlace(i);
    }
    forall unit: byte | 1 <= unit <= 247
      ensures 0 <= PlaceOf(unit) < |UnitIds()| && UnitIds()[PlaceOf(unit)] == unit
    {
      UnitAtPlace(PlaceOf(unit));
    }
  }

  /** The sweep tries the units in order, none a third time, at most 493 times in all. */
  lemma ProbesAreBounded(options: Options, events: seq<Event>)
    requires ValidOptions(options)
    ensures var probes := Run(options, Initial, events).probes;
            && InOrder(options, probes)
            && |probes| <= (if options.fixedUnit.Some? then 1 else 493)
  {
    Reachable(options, events);
  }

  /** Whether an event that ends a probe lets the sweep repeat it. */
  predicate Repeats(s: Scan, event: Event)
    requires s.phase.Probing?
  {
    event.Failure? && event.env.sessionClosed && event.env.replacement.Some? && s.phase.retry
  }

  /** What becomes of a probe of a sweep: it is repeated, the next one follows, or none does. */
  lemma NextProbe(options: Options, s: Scan, event: Event)
    requires options.fixedUnit.None? && s.phase.Probing?
    ensures var probes, index := Step(options, s, event).probes, s.phase.index;
            if Repeats(s, event) && index != |UnitIds()| then probes == s.probes + [Probe(index, UnitAt(options, index))]
            else probes == s.probes || probes == s.probes + [Probe(index + 1, UnitAt(options, index + 1))]
  {
    hide OnChunk, InSpan, UnitIds, UnitAt;
  }

  lemma RepeatsByRetry(options: Options, events: seq<Event>, event: Event)
    requires ValidOptions(options) && options.fixedUnit.None?
    requires Run(options, Initial, events).phase.Probing?
    ensures var s := Run(options, Initial, events);
            && s.probes != []
            && (Step(options, s, event).probes == s.probes + [s.probes[|s.probes| - 1]] <==> Repeats(s, event))
  {
    hide Tiled, TraceFits, Step, UnitIds, UnitAt, Run;
    Reachable(options, events);
    ProbingOrderIsPermutation();
    var s := Run(options, Initial, events);
    NextProbe(options, s, event);
    var last, after := s.probes[|s.probes| - 1], Step(options, s, event).probes;
    assert last == Probe(s.phase.index, UnitAt(options, s.phase.index));
    assert |after| > |s.probes| ==> (after == s.probes + [last] <==> after[|s.probes|].index == last.index);
  }

  /** A probe is issued with its retry open exactly by a reply over an open session. */
  lemma RetryOpensExactly(options: Options, s: Scan, issuing: Event)
    requires |Step(options, s, issuing).probes| > |s.probes|
    ensures var after := Step(options, s, issuing);
            after.phase.Probing? && (after.phase.retry <==> issuing.Reply? && !issuing.env.sessionClosed)
  {
    hide OnChunk, InSpan, Fetch, UnitIds;
    if issuing.Reply? && s.phase.Walking? {
      OnChunkProbesNot(options, s, issuing.registers);
    } else if issuing.Reply? && s.phase.Probing? && IsHeader(issuing.registers) {
      FetchProbesNot(s.(selected := Some(UnitAt(options, s.phase.index))), issuing.registers[3]);
    }
  }

  lemma FetchProbesNot(s: Scan, length: nat)
    requires length > 0
    ensures Fetch(s, CommonModel(length), COMMON, length).probes == s.probes
  {
  }

  lemma OnChunkProbesNot(options: Options, s: Scan, registers: seq<u16>)
    requires s.phase.Walking?
    ensures OnChunk(options, s, registers).probes == s.probes
  {
    hide InSpan, End, ThingOf, Instances;
  }

  /**
   * In every run of a sweep a probe is repeated exactly when the event that issued it was a reply,
   * without a header, over an open session, and the event behind it is the probe's failure, with
   * the session closed and another to be had.
   */
  lemma RepeatsExactly(options: Options, events: seq<Event>, issuing: Event, ending: Event)
    requires ValidOptions(options) && options.fixedUnit.None?
    requires |Run(options, Initial, events + [issuing]).probes| > |Run(options, Initial, events).probes|
    ensures var probes := Run(options, Initial, events + [issuing]).probes;
            Run(options, Initial, events + [issuing, ending]).probes == probes + [probes[|probes| - 1]] <==>
              && issuing.Reply? && !issuing.env.sessionClosed
              && ending.Failure? && ending.env.sessionClosed && ending.env.replacement.Some?
  {
    hide Step, Run;
    RunAppend(options, Initial, events, issuing);
    RunAppend(options, Initial, events + [issuing], ending);
    assert events + [issuing] + [ending] == events + [issuing, ending];
    RetryOpensExactly(options, Run(options, Initial, events), issuing);
    RepeatsByRetry(options, events + [issuing], ending);
  }

  /** A run that probes its second unit twice. */
  lemma SecondUnitProbedTwice(options: Options, first: ModbusEndpoint, second: ModbusEndpoint)
    requires ValidOptions(options) && options.fixedUnit.None?
    ensures var events := [Start(Some(first), Env(false, None)), Reply([0, 0, 0, 0], Env(false, None)),
                           Failure(Env(true, Some(second)))];
            var probes := Run(options, Initial, events).probes;
            |probes| == 3 && probes[1] == probes[2]
  {
    var start, failure := Start(Some(first), Env(false, None)), Failure(Env(true, Some(second)));
    var reply := Reply([0, 0, 0, 0], Env(false, None));
    ProbingOrderIsPermutation();
    var s1 := Step(options, Initial, start);
    var s2 := Step(options, s1, reply);
    RunAppend(options, Initial, [], start);
    RunAppend(options, Initial, [start], reply);
    RunAppend(options, Initial, [start, reply], failure);
    assert [] + [start] == [start] && [start] + [reply] == [start, reply];
    assert [start, reply] + [failure] == [start, reply, failure];
  }

  /** A sweep that ends on its own without an accepted header has probed every unit id. */
  lemma SweepIsComplete(options: Options, events: seq<Event>, unit: byte)
    requires ValidOptions(options) && options.fixedUnit.None?
    requires var s := Run(options, Initial, events);
             s.trace == [Completed] && s.selected.None? && !s.cancelled
    requires 1 <= unit <= 247
    ensures exists probe :: probe in Run(options, Initial, events).probes && probe.unit == unit
  {
    Reachable(options, events);
    var probes := Run(options, Initial, events).probes;
    ProbingOrderIsPermutation();
    var i := ProbeAt(options, probes, PlaceOf(unit));
    assert probes[i] in probes;
  }

  lemma {:induction false} ProbeAt(options: Options, probes: seq<Probe>, index: nat) returns (i: nat)
    requires InOrder(options, probes)
    requires probes != [] && index <= probes[|probes| - 1].index
    ensures i < |probes| && probes[i].index == index
    decreases |probes|
  {
    i := |probes| - 1;
    while probes[i].index != index
      invariant 0 <= i < |probes| && index <= probes[i].index
      decreases i
    {
      i := i - 1;
    }
  }

  // Termination

  /** A bound on the replies a scan still waits for. */
  function RepliesLeft(s: Scan): int {
    match s.phase
    case Unstarted => 26027
    case Probing(index, retry) => 25532 + ProbesLeft(index, retry)
    case Walking(_, reader) => ADDRESSES - reader.next
    case Finished => 0
  }

  function CountReplies(events: seq<Event>): nat {
    if events == [] then 0
    else (if events[0].Reply? || events[0].Failure? then 1 else 0) + CountReplies(events[1..])
  }

  lemma ReplyMakesProgress(options: Options, s: Scan, event: Event)
    requires ValidOptions(options) && Invariant(options, s)
    ensures RepliesLeft(Step(options, s, event)) <= RepliesLeft(s)
    ensures (event.Reply? || event.Failure?) && !s.phase.Unstarted? && !s.phase.Finished? ==>
              RepliesLeft(Step(options, s, event)) < RepliesLeft(s)
    ensures RepliesLeft(s) >= 0
  {
    hide Invariant, OnProbeResponse, OnProbeFailure, OnChunk, ProbesLeft;
    LeftIsBounded(options, s);
    StepKeepsInvariant(options, s, event);
    LeftIsBounded(options, Step(options, s, event));
    if s.phase.Probing? && (event.Reply? || event.Failure?) {
      ProbeMakesProgress(options, s, event);
    } else if s.phase.Walking? && event.Reply? {
      ChunkMakesProgress(options, s, event.registers);
    } else if event.Start? && s.phase.Unstarted? {
      StartMakesProgress(options, s, event);
    }
  }

  lemma LeftIsBounded(options: Options, s: Scan)
    requires Invariant(options, s)
    ensures RepliesLeft(s) >= 0
    ensures s.phase.Walking? || s.phase.Probing? ==> RepliesLeft(s) > 0
  {
  }

  lemma StartMakesProgress(options: Options, s: Scan, event: Event)
    requires event.Start? && s.phase.Unstarted?
    ensures RepliesLeft(Step(options, s, event)) <= RepliesLeft(s)
  {
  }

  lemma ProbeMakesProgress(options: Options, s: Scan, event: Event)
    requires Invariant(options, s) && s.phase.Probing? && (event.Reply? || event.Failure?)
    ensures RepliesLeft(Step(options, s, event)) < RepliesLeft(s)
  {
    hide Tiled, WellFormed, PrintModels, TraceFits, IsHeader;
  }

  lemma ChunkMakesProgress(options: Options, s: Scan, registers: seq<u16>)
    requires ValidOptions(options) && Invariant(options, s) && s.phase.Walking?
    ensures RepliesLeft(OnChunk(options, s, registers)) < RepliesLeft(s)
  {
    hide Tiled, WellFormed, PrintModels, TraceFits, Deliver, NextChunk;
    LeftIsBounded(options, s);
    if |registers| == ChunkSize(s.phase.reader) {
      ChunkMovesOn(options, s, registers);
    }
  }

  lemma ChunkMovesOn(options: Options, s: Scan, registers: seq<u16>)
    requires ValidOptions(options) && Invariant(options, s)
    requires s.phase.Walking? && |registers| == ChunkSize(s.phase.reader)
    ensures var after := OnChunk(options, s, registers);
            after.phase.Finished? || (after.phase.Walking? && after.phase.reader.next == s.phase.reader.next + |registers|)
  {
    OnChunkKeepsInvariant(options, s, registers);
    OnChunkCases(options, s, registers);
    var s' := s.(received := s.received + registers);
    DeliverKeepsReceived(options, s', s.phase.goal, s.phase.reader.registers + registers);
  }

  lemma DeliverKeepsReceived(options: Options, s: Scan, goal: Goal, registers: seq<u16>)
    requires s.phase.Walking?
    ensures var after := Deliver(options, s, goal, registers);
            && after.received == s.received && after.probes == s.probes
            && (after.phase.Finished? || after.phase.Walking?)
  {
    hide Locations, End, Counters, ThingOf, InSpan, Instances;
  }

  lemma {:induction false} RepliesExhaust(options: Options, s: Scan, events: seq<Event>)
    requires ValidOptions(options) && Invariant(options, s) && !s.phase.Unstarted?
    requires CountReplies(events) >= RepliesLeft(s)
    ensures Run(options, s, events).phase.Finished?
    decreases |events|
  {
    if s.phase.Finished? {
      EndIsFinal(options, s, events);
    } else {
      ReplyMakesProgress(options, s, events[0]);
      StepKeepsInvariant(options, s, events[0]);
      RepliesExhaust(options, Step(options, s, events[0]), events[1..]);
    }
  }

  /** Every scan ends: once started, no device can keep it going beyond 26027 replies. */
  lemma ScanTerminates(options: Options, session: Option<ModbusEndpoint>, env: Env, events: seq<Event>)
    requires ValidOptions(options)
    requires CountReplies(events) >= 26027
    ensures Run(options, Initial, [Start(session, env)] + events).phase.Finished?
  {
    var start := Start(session, env);
    StepKeepsInvariant(options, Initial, start);
    assert ([start] + events)[1..] == events;
    RepliesExhaust(options, Step(options, Initial, start), events);
  }
}
