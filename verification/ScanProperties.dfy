/** What every run of a SunSpec scan keeps, whatever the devices reply. */
module ScanProperties {
  import opened Bytes
  import opened ScanSpec

  // The reads of a chain walk tile the address space

  /** The first address no chunk has covered yet. */
  function Frontier(chunks: seq<Read>): nat {
    if chunks == [] then COMMON else chunks[|chunks| - 1].address + chunks[|chunks| - 1].count
  }

  /** Each chunk starts where the previous one ended, asks one unit and stays in the allowed span. */
  ghost predicate Tiled(options: Options, unit: Option<byte>, chunks: seq<Read>) {
    forall i :: 0 <= i < |chunks| ==>
      && unit == Some(chunks[i].unit)
      && chunks[i].address == Frontier(chunks[..i])
      && 1 <= chunks[i].count <= CHUNK
      && COMMON <= chunks[i].address
      && chunks[i].address + chunks[i].count <= ADDRESSES
      && chunks[i].address + chunks[i].count - BASE <= options.maxRegisterSpan
  }

  // The registers of a chain walk are a printed chain

  function PrintModel(model: Model): seq<u16> {
    [model.id, Cast16(|model.payload|)] + model.payload
  }

  function PrintModels(models: seq<Model>): seq<u16> {
    if models == [] then [] else PrintModels(models[..|models| - 1]) + PrintModel(models[|models| - 1])
  }

  const EndModel: seq<u16> := [END_ID, 0]

  ghost predicate WellFormed(options: Options, common: seq<u16>, models: seq<Model>) {
    && (|common| == 65 || |common| == 66)
    && |models| + 1 <= options.maxModels
    && (forall i :: 0 <= i < |models| ==> models[i].id != END_ID && |models[i].payload| < 0x1_0000)
  }

  lemma {:induction false} PrintedLength(common: seq<u16>, models: seq<Model>)
    ensures COMMON + |common + PrintModels(models)| == End(common, models)
  {
    if models != [] {
      PrintedLength(common, models[..|models| - 1]);
    }
  }

  lemma PrintAppend(models: seq<Model>, model: Model)
    ensures PrintModels(models + [model]) == PrintModels(models) + PrintModel(model)
  {
  }

  // The order of the probes

  /** The probes start with the first unit, never skip one and never try one a third time. */
  ghost predicate InOrder(options: Options, probes: seq<Probe>) {
    && (probes != [] ==> probes[0].index == 0)
    && (forall i :: 0 <= i < |probes| ==> probes[i].unit == UnitAt(options, probes[i].index))
    && (forall i, j :: 0 <= i && j == i + 1 && j < |probes| ==> probes[i].index <= probes[j].index <= probes[i].index + 1)
    && (forall i, j :: 0 <= i && i + 2 <= j < |probes| ==> probes[i].index < probes[j].index)
  }

  /** Two for each unit left, one for the retry still allowed. */
  function ProbesLeft(index: nat, retry: bool): int {
    2 * (247 - index) + if retry then 1 else 0
  }

  ghost predicate ProbesFit(options: Options, s: Scan) {
    && InOrder(options, s.probes)
    && (s.phase.Probing? ==>
          && s.probes != []
          && s.probes[|s.probes| - 1].index == s.phase.index
          && (s.phase.retry ==> |s.probes| > 1 && s.probes[|s.probes| - 2].index < s.phase.index)
          && (options.fixedUnit.Some? ==> |s.probes| == 1)
          && (options.fixedUnit.None? ==> s.phase.index < 247)
          && |s.probes| + ProbesLeft(s.phase.index, s.phase.retry) <= 495)
    && |s.probes| <= 493
    && (options.fixedUnit.Some? ==> |s.probes| <= 1)
  }

  // The invariant

  ghost predicate ReaderFits(options: Options, s: Scan)
    requires s.phase.Walking?
  {
    var reader := s.phase.reader;
    && reader.remaining > 0
    && COMMON + |s.received| == reader.next
    && reader.next + reader.remaining <= ADDRESSES
    && reader.next + reader.remaining - BASE <= options.maxRegisterSpan
    && Frontier(s.chunks) == reader.next + ChunkSize(reader)
  }

  ghost predicate GoalFits(options: Options, s: Scan)
    requires s.phase.Walking?
  {
    var reader := s.phase.reader;
    match s.phase.goal
    case CommonModel(length) =>
      && (length == 65 || length == 66)
      && s.common == [] && s.models == []
      && s.received == reader.registers
      && |reader.registers| + reader.remaining == length
    case ModelHeader =>
      && WellFormed(options, s.common, s.models)
      && s.received == s.common + PrintModels(s.models) + reader.registers
      && reader.registers == [] && reader.remaining == 2
    case ModelPayload(id, length) =>
      && WellFormed(options, s.common, s.models)
      && id != END_ID && length < 0x1_0000 && |s.models| + 1 < options.maxModels
      && s.received == s.common + PrintModels(s.models) + [id, Cast16(length)] + reader.registers
      && |reader.registers| + reader.remaining == length
  }

  /** The thing is what the received registers say, down to the end model. */
  ghost predicate Sound(options: Options, s: Scan, thing: Thing) {
    && s.endpoint.Some? && s.selected.Some?
    && WellFormed(options, s.common, s.models)
    && s.received == s.common + PrintModels(s.models) + EndModel
    && thing == ThingOf(s.endpoint.value, s.selected.value, s.common, s.models)
  }

  ghost predicate TraceFits(options: Options, s: Scan) {
    if s.phase.Finished? then
      || s.trace == [Errored]
      || (s.trace == [Completed]
          && (s.selected.None? && !s.cancelled && options.fixedUnit.None? ==>
                s.probes != [] && s.probes[|s.probes| - 1].index == 246))
      || (exists thing :: s.trace == [Next(thing), Completed] && Sound(options, s, thing))
    else
      s.trace == []
  }

  ghost predicate Invariant(options: Options, s: Scan) {
    && ProbesFit(options, s)
    && Tiled(options, s.selected, s.chunks)
    && TraceFits(options, s)
    && COMMON + |s.received| <= Frontier(s.chunks)
    && (s.phase.Unstarted? ==> s.probes == [])
    && (s.phase.Unstarted? || s.phase.Probing? ==>
          s.selected.None? && s.chunks == [] && s.received == [] && s.common == [] && s.models == [])
    && (s.phase.Probing? || s.phase.Walking? ==> s.endpoint.Some? && !s.cancelled)
    && (s.phase.Walking? ==> s.selected.Some? && ReaderFits(options, s) && GoalFits(options, s))
  }

  lemma TileAppend(options: Options, unit: Option<byte>, chunks: seq<Read>, chunk: Read)
    requires Tiled(options, unit, chunks)
    requires unit == Some(chunk.unit) && chunk.address == Frontier(chunks) >= COMMON && 1 <= chunk.count <= CHUNK
    requires chunk.address + chunk.count <= ADDRESSES
    requires chunk.address + chunk.count - BASE <= options.maxRegisterSpan
    ensures Tiled(options, unit, chunks + [chunk])
  {
  }

  lemma ProbeKeepsOrder(options: Options, probes: seq<Probe>, index: nat)
    requires InOrder(options, probes)
    requires probes == [] ==> index == 0
    requires probes != [] ==>
               var last := probes[|probes| - 1].index;
               index == last + 1 || (index == last && |probes| > 1 && probes[|probes| - 2].index < index)
    ensures InOrder(options, probes + [Probe(index, UnitAt(options, index))])
  {
  }

  /** The end of the chain so far, which is where the walk has read up to. */
  lemma ReadHeaderKeepsInvariant(options: Options, s: Scan)
    requires ValidOptions(options)
    requires s.phase.Walking? && s.endpoint.Some? && s.selected.Some? && !s.cancelled && s.trace == []
    requires ProbesFit(options, s) && Tiled(options, s.selected, s.chunks)
    requires WellFormed(options, s.common, s.models)
    requires s.received == s.common + PrintModels(s.models)
    requires Frontier(s.chunks) == COMMON + |s.received|
    ensures Invariant(options, ReadHeader(options, s))
  {
    hide PrintModels, WellFormed, InOrder, Tiled;
    var address := End(s.common, s.models);
    PrintedLength(s.common, s.models);
    if InSpan(options, address, 2) {
      TileAppend(options, s.selected, s.chunks, Read(Selected(s), address, 2));
      assert s.received + [] == s.received;
    }
  }

  /** No chunk of a logical read inside the address space is refused. */
  lemma NextChunkKeepsInvariant(options: Options, s: Scan, goal: Goal, reader: Reader)
    requires s.phase.Probing? || s.phase.Walking?
    requires s.endpoint.Some? && s.selected.Some? && !s.cancelled && s.trace == []
    requires ProbesFit(options, s.(phase := Finished)) && Tiled(options, s.selected, s.chunks)
    requires reader.remaining > 0 && COMMON + |s.received| == reader.next == Frontier(s.chunks)
    requires reader.next + reader.remaining <= ADDRESSES
    requires reader.next + reader.remaining - BASE <= options.maxRegisterSpan
    requires GoalFits(options, s.(phase := Walking(goal, reader)))
    ensures Invariant(options, NextChunk(s, goal, reader))
    ensures NextChunk(s, goal, reader).phase == Walking(goal, reader)
  {
    hide Tiled, InOrder, WellFormed, PrintModels;
    TileAppend(options, s.selected, s.chunks, Read(Selected(s), reader.next, ChunkSize(reader)));
    var s' := NextChunk(s, goal, reader);
    assert GoalFits(options, s') by {
      assert GoalFits(options, s.(phase := Walking(goal, reader)));
    }
  }

  lemma SweepKeepsInvariant(options: Options, s: Scan, index: nat, retry: bool)
    requires Invariant(options, s) && s.phase.Probing? && options.fixedUnit.None?
    requires index == s.phase.index + 1 || (index == s.phase.index && s.phase.retry && !retry)
    ensures Invariant(options, ProbeUnit(options, s, index, retry))
  {
    if index < 247 {
      ProbeKeepsOrder(options, s.probes, index);
    }
  }

  lemma ReplacedKeepsInvariant(options: Options, s: Scan, env: Env)
    requires Invariant(options, s) && s.phase.Probing?
    ensures Invariant(options, Replaced(s, env)) && Replaced(s, env).phase == s.phase
  {
    hide InOrder, Tiled;
  }

  /** A header that is accepted starts the walk, if the common model fits the span. */
  lemma AcceptKeepsInvariant(options: Options, s: Scan, registers: seq<u16>)
    requires ValidOptions(options) && Invariant(options, s) && s.phase.Probing? && IsHeader(registers)
    ensures Invariant(options, OnProbeResponse(options, s, registers, Env(false, None)))
  {
    hide InOrder, WellFormed, PrintModels, UnitAt;
    var s' := s.(selected := Some(UnitAt(options, s.phase.index)));
    var length := registers[3];
    if InSpan(options, COMMON, length) {
      assert Tiled(options, s'.selected, s'.chunks);
      NextChunkKeepsInvariant(options, s', CommonModel(length), Reader(COMMON, length, []));
    }
  }

  lemma OnProbeKeepsInvariant(options: Options, s: Scan, event: Event)
    requires ValidOptions(options) && Invariant(options, s) && s.phase.Probing?
    requires event.Reply? || event.Failure?
    ensures Invariant(options, Step(options, s, event))
  {
    hide InOrder, WellFormed, PrintModels, Fetch, InSpan, IsHeader, ProbeUnit;
    if event.Reply? && IsHeader(event.registers) {
      AcceptKeepsInvariant(options, s, event.registers);
      assert Step(options, s, event) == OnProbeResponse(options, s, event.registers, Env(false, None));
    } else if options.fixedUnit.None? {
      ReplacedKeepsInvariant(options, s, event.env);
      var s' := Replaced(s, event.env);
      SweepKeepsInvariant(options, s', s.phase.index + 1, event.Reply? && !event.env.sessionClosed);
      if s.phase.retry {
        SweepKeepsInvariant(options, s', s.phase.index, false);
      }
    }
  }

  /** The walk between two logical reads: what has been received is the chain so far. */
  ghost predicate BetweenReads(options: Options, s: Scan) {
    && ValidOptions(options)
    && s.phase.Walking? && s.endpoint.Some? && s.selected.Some? && !s.cancelled && s.trace == []
    && ProbesFit(options, s) && Tiled(options, s.selected, s.chunks)
    && WellFormed(options, s.common, s.models)
    && Frontier(s.chunks) == COMMON + |s.received|
  }

  lemma EndModelEmitsSoundly(options: Options, s: Scan)
    requires BetweenReads(options, s)
    requires s.received == s.common + PrintModels(s.models) + EndModel
    ensures Invariant(options, Emit(s))
  {
    hide PrintModels, WellFormed, InOrder, Tiled;
    assert Sound(options, Emit(s), ThingOf(s.endpoint.value, s.selected.value, s.common, s.models));
  }

  /** A model whose payload has been read in full joins the chain. */
  lemma ModelKeepsInvariant(options: Options, s: Scan, id: u16, payload: seq<u16>)
    requires BetweenReads(options, s)
    requires id != END_ID && |payload| < 0x1_0000 && |s.models| + 1 < options.maxModels
    requires s.received == s.common + PrintModels(s.models) + [id, Cast16(|payload|)] + payload
    ensures Invariant(options, ReadHeader(options, s.(models := s.models + [Model(id, payload)])))
  {
    hide InOrder, Tiled, ReadHeader, Invariant;
    var model := Model(id, payload);
    PrintAppend(s.models, model);
    assert s.received == s.common + PrintModels(s.models + [model]);
    ReadHeaderKeepsInvariant(options, s.(models := s.models + [model]));
  }

  lemma PayloadReadKeepsInvariant(options: Options, s: Scan, id: u16, length: u16)
    requires BetweenReads(options, s)
    requires id != END_ID && length > 0 && |s.models| + 1 < options.maxModels
    requires s.received == s.common + PrintModels(s.models) + [id, length]
    requires InSpan(options, End(s.common, s.models) + 2, length)
    ensures Invariant(options, Fetch(s, ModelPayload(id, length), End(s.common, s.models) + 2, length))
  {
    PrintedLength(s.common, s.models);
    assert s.received == s.common + PrintModels(s.models) + [id, Cast16(length)] + [];
    NextChunkKeepsInvariant(options, s, ModelPayload(id, length), Reader(End(s.common, s.models) + 2, length, []));
  }

  lemma OnHeaderKeepsInvariant(options: Options, s: Scan, header: seq<u16>)
    requires BetweenReads(options, s) && |header| == 2
    requires s.received == s.common + PrintModels(s.models) + header
    ensures Invariant(options, OnHeader(options, s, header))
  {
    hide PrintModels, WellFormed, ReadHeader, Fetch, Tiled, InOrder;
    assert header == [header[0], header[1]];
    if header[0] == END_ID {
      if header[1] == 0 {
        EndModelEmitsSoundly(options, s);
      }
    } else if |s.models| + 1 >= options.maxModels || !InSpan(options, End(s.common, s.models), 2)
           || !InSpan(options, End(s.common, s.models) + 2, header[1]) || Instances(s.models, header[0]) > 0xffff {
    } else if header[1] == 0 {
      assert s.received + [] == s.received;
      ModelKeepsInvariant(options, s, header[0], []);
    } else {
      PayloadReadKeepsInvariant(options, s, header[0], header[1]);
    }
  }

  // The last chunk of a logical read has arrived

  ghost predicate LastChunk(options: Options, s: Scan, registers: seq<u16>) {
    && ValidOptions(options) && Invariant(options, s) && s.phase.Walking?
    && |registers| == s.phase.reader.remaining <= CHUNK
  }

  lemma CommonKeepsInvariant(options: Options, s: Scan, registers: seq<u16>)
    requires LastChunk(options, s, registers) && s.phase.goal.CommonModel?
    ensures var s' := s.(received := s.received + registers);
            Invariant(options, ReadHeader(options, s'.(common := s.phase.reader.registers + registers)))
  {
    var all := s.phase.reader.registers + registers;
    assert all + PrintModels([]) == all;
    ReadHeaderKeepsInvariant(options, s.(received := s.received + registers, common := all));
  }

  lemma HeaderKeepsInvariant(options: Options, s: Scan, registers: seq<u16>)
    requires LastChunk(options, s, registers) && s.phase.goal.ModelHeader?
    ensures var s' := s.(received := s.received + registers);
            Invariant(options, OnHeader(options, s', s.phase.reader.registers + registers))
  {
    assert s.phase.reader.registers + registers == registers;
    assert s.received + registers == s.common + PrintModels(s.models) + registers;
    OnHeaderKeepsInvariant(options, s.(received := s.received + registers), registers);
  }

  lemma PayloadKeepsInvariant(options: Options, s: Scan, registers: seq<u16>)
    requires LastChunk(options, s, registers) && s.phase.goal.ModelPayload?
    ensures var s' := s.(received := s.received + registers);
            var model := Model(s.phase.goal.id, s.phase.reader.registers + registers);
            Invariant(options, ReadHeader(options, s'.(models := s.models + [model])))
  {
    var all := s.phase.reader.registers + registers;
    assert s.received + registers
        == s.common + PrintModels(s.models) + [s.phase.goal.id, Cast16(s.phase.goal.length)] + all;
    ModelKeepsInvariant(options, s.(received := s.received + registers), s.phase.goal.id, all);
  }

  lemma DeliverKeepsInvariant(options: Options, s: Scan, registers: seq<u16>)
    requires LastChunk(options, s, registers)
    ensures Invariant(options, Deliver(options, s.(received := s.received + registers), s.phase.goal,
                                       s.phase.reader.registers + registers))
  {
    match s.phase.goal
    case CommonModel(_) => CommonKeepsInvariant(options, s, registers);
    case ModelHeader => HeaderKeepsInvariant(options, s, registers);
    case ModelPayload(_, _) => PayloadKeepsInvariant(options, s, registers);
  }

  /** More chunks of the logical read are missing. */
  lemma ContinueKeepsInvariant(options: Options, s: Scan, registers: seq<u16>)
    requires ValidOptions(options) && Invariant(options, s) && s.phase.Walking?
    requires |registers| == CHUNK < s.phase.reader.remaining
    ensures var reader := s.phase.reader;
            Invariant(options, NextChunk(s.(received := s.received + registers), s.phase.goal,
              Reader(reader.next + CHUNK, reader.remaining - CHUNK, reader.registers + registers)))
  {
    var s' := s.(received := s.received + registers);
    var reader := s.phase.reader;
    var reader' := Reader(reader.next + CHUNK, reader.remaining - CHUNK, reader.registers + registers);
    if s.phase.goal.ModelPayload? {
      assert s'.received == s.common + PrintModels(s.models)
                            + [s.phase.goal.id, Cast16(s.phase.goal.length)] + reader'.registers;
    }
    NextChunkKeepsInvariant(options, s', s.phase.goal, reader');
  }

  lemma OnChunkCases(options: Options, s: Scan, registers: seq<u16>)
    requires s.phase.Walking? && s.phase.reader.remaining > 0 && |registers| == ChunkSize(s.phase.reader)
    ensures var reader := s.phase.reader;
            var s' := s.(received := s.received + registers);
            OnChunk(options, s, registers) ==
            if reader.remaining > CHUNK
            then NextChunk(s', s.phase.goal, Reader(reader.next + CHUNK, reader.remaining - CHUNK, reader.registers + registers))
            else Deliver(options, s', s.phase.goal, reader.registers + registers)
  {
  }

  lemma OnChunkKeepsInvariant(options: Options, s: Scan, registers: seq<u16>)
    requires ValidOptions(options) && Invariant(options, s) && s.phase.Walking?
    ensures Invariant(options, OnChunk(options, s, registers))
  {
    if |registers| != ChunkSize(s.phase.reader) {
      assert OnChunk(options, s, registers) == Complete(s);
    } else {
      OnChunkCases(options, s, registers);
      if s.phase.reader.remaining > CHUNK {
        ContinueKeepsInvariant(options, s, registers);
      } else {
        DeliverKeepsInvariant(options, s, registers);
      }
    }
  }

  /** The first probe of a scan that has a session. */
  lemma FirstProbeKeepsInvariant(options: Options, s: Scan)
    requires Invariant(options, s) && s.phase.Unstarted? && !s.cancelled && s.endpoint.Some?
    ensures Invariant(options, ProbeUnit(options, s, 0, false))
  {
    hide WellFormed, Tiled;
    assert [] + [Probe(0, UnitAt(options, 0))] == [Probe(0, UnitAt(options, 0))];
  }

  lemma EndpointKeepsInvariant(options: Options, s: Scan, endpoint: Option<ModbusEndpoint>)
    requires Invariant(options, s) && s.phase.Unstarted?
    ensures Invariant(options, s.(endpoint := endpoint))
  {
    hide WellFormed, Tiled, InOrder;
  }

  lemma StartKeepsInvariant(options: Options, s: Scan, event: Event)
    requires ValidOptions(options) && Invariant(options, s) && event.Start?
    ensures Invariant(options, Step(options, s, event))
  {
    hide WellFormed, Tiled, InOrder, ProbeUnit, Sound;
    if s.phase.Unstarted? && event.session.Some? && !s.cancelled {
      EndpointKeepsInvariant(options, s, event.session);
      var s' := s.(endpoint := event.session);
      EndpointKeepsInvariant(options, s', Replaced(s', event.env).endpoint);
      FirstProbeKeepsInvariant(options, Replaced(s', event.env));
    }
  }

  lemma CancelKeepsInvariant(options: Options, s: Scan)
    requires Invariant(options, s)
    ensures Invariant(options, Step(options, s, Cancel))
  {
    if s.phase.Finished? && s.trace != [Errored] && s.trace != [Completed] {
      var thing :| s.trace == [Next(thing), Completed] && Sound(options, s, thing);
      assert Sound(options, Step(options, s, Cancel), thing);
    }
  }

  lemma StepKeepsInvariant(options: Options, s: Scan, event: Event)
    requires ValidOptions(options) && Invariant(options, s)
    ensures Invariant(options, Step(options, s, event))
  {
    match event
    case Start(_, _) =>
      StartKeepsInvariant(options, s, event);
    case Cancel =>
      CancelKeepsInvariant(options, s);
    case Reply(registers, _) =>
      if s.phase.Probing? {
        OnProbeKeepsInvariant(options, s, event);
      } else if s.phase.Walking? {
        OnChunkKeepsInvariant(options, s, registers);
      }
    case Failure(_) =>
      if s.phase.Probing? {
        OnProbeKeepsInvariant(options, s, event);
      }
  }

  lemma {:induction false} RunKeepsInvariant(options: Options, s: Scan, events: seq<Event>)
    requires ValidOptions(options) && Invariant(options, s)
    ensures Invariant(options, Run(options, s, events))
    decreases |events|
  {
    if events != [] {
      StepKeepsInvariant(options, s, events[0]);
      RunKeepsInvariant(options, Step(options, s, events[0]), events[1..]);
    }
  }
}
