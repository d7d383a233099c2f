/**
 * The scan as the program keeps it: a reader that gathers one logical read chunk by chunk, and a
 * scan state whose callbacks advance its unit index, header, locations, instance counters and
 * current address. Every callback moves the scan along the transition system of `ScanSpec`.
 */
module SunspecScannerModel {
  import opened Bytes
  import opened ScanSpec
  import opened ScanProperties
  import opened SunspecIdentity

  /** What a reader does next: ask for a chunk, hand over all registers, or give up. */
  datatype Turn = Idle | Issue(address: nat, count: nat) | Succeed(registers: seq<u16>) | Refuse

  function TurnOf(reader: Reader): Turn {
    if reader.remaining == 0 then Succeed(reader.registers)
    else if reader.next >= ADDRESSES || reader.next + ChunkSize(reader) > ADDRESSES then Refuse
    else Issue(reader.next, ChunkSize(reader))
  }

  function Extended(reader: Reader, chunk: seq<u16>): Reader
    requires |chunk| <= reader.remaining
  {
    Reader(reader.next + |chunk|, reader.remaining - |chunk|, reader.registers + chunk)
  }

  /** What the scan makes of a chunk is what the reader's turn asks for. */
  lemma OnChunkTurns(options: Options, s: Scan, registers: seq<u16>)
    requires s.phase.Walking? && s.phase.reader.remaining > 0
    ensures OnChunk(options, s, registers) ==
            if |registers| != ChunkSize(s.phase.reader) then Complete(s)
            else
              var s' := s.(received := s.received + registers);
              var reader := Extended(s.phase.reader, registers);
              if TurnOf(reader).Succeed? then Deliver(options, s', s.phase.goal, reader.registers)
              else if TurnOf(reader).Refuse? then Complete(s')
              else NextChunk(s', s.phase.goal, reader)
  {
  }

  class LogicalRegisterReader {
    const unitId: byte
    var nextAddress: nat
    var remaining: nat
    var registers: seq<u16>
    var finished: bool

    ghost function Gathering(): Reader
      reads `nextAddress, `remaining, `registers
    {
      Reader(nextAddress, remaining, registers)
    }

    constructor (unitId: byte, startAddress: nat, registerCount: nat)
      ensures this.unitId == unitId && !finished
      ensures nextAddress == startAddress && remaining == registerCount && registers == []
    {
      this.unitId := unitId;
      nextAddress, remaining, registers, finished := startAddress, registerCount, [], false;
    }

    method Next() returns (turn: Turn)
      modifies `finished
      ensures old(finished) ==> turn.Idle? && finished
      ensures !old(finished) ==> turn == TurnOf(Gathering()) && finished == !turn.Issue?
    {
      if finished {
        return Idle;
      }
      if remaining == 0 {
        finished := true;
        return Succeed(registers);
      }
      var count := if remaining < 125 then remaining else 125;
      var endAddress := nextAddress + count;
      if nextAddress >= 0x1_0000 || endAddress > 0x1_0000 {
        turn := Fail();
        return;
      }
      return Issue(nextAddress, count);
    }

    /** The reply to the chunk asked for last; `Idle` when the reader has been cancelled. */
    method OnChunk(chunk: seq<u16>) returns (turn: Turn)
      requires !finished ==> remaining > 0
      modifies `nextAddress, `remaining, `registers, `finished
      ensures old(finished) ==> turn.Idle? && finished
      ensures !old(finished) && |chunk| != ChunkSize(old(Gathering())) ==> turn == Refuse && finished
      ensures !old(finished) && |chunk| == ChunkSize(old(Gathering())) ==>
                && Gathering() == Extended(old(Gathering()), chunk)
                && turn == TurnOf(Gathering()) && finished == !turn.Issue?
    {
      var count := if remaining < 125 then remaining else 125;
      if |chunk| != count {
        turn := Fail();
        return;
      }
      registers := registers + chunk;
      nextAddress := nextAddress + count;
      remaining := remaining - count;
      turn := Next();
    }

    method Fail() returns (turn: Turn)
      modifies `finished
      ensures turn == (if old(finished) then Idle else Refuse) && finished
    {
      if finished {
        return Idle;
      }
      finished := true;
      return Refuse;
    }

    method Cancel()
      modifies `finished
      ensures finished
    {
      if finished {
        return;
      }
      finished := true;
    }
  }

  /** The location a header promises for the model that comes next. */
  function LocationAhead(s: Scan, id: u16, length: nat): Location {
    Location(id, Cast16(Instances(s.models, id)), Cast16(End(s.common, s.models) + 2), Cast16(length))
  }

  /** A model joins the chain at its end, with the location its header has promised. */
  lemma ModelJoins(s: Scan, model: Model)
    ensures var longer := s.models + [model];
            && Locations(s.common, longer) == Locations(s.common, s.models) + [LocationAhead(s, model.id, |model.payload|)]
            && Counters(longer) == Counters(s.models)[model.id := Instances(s.models, model.id) + 1]
            && End(s.common, longer) == End(s.common, s.models) + 2 + |model.payload|
  {
  }

  lemma CommonModelAlone(common: seq<u16>)
    ensures Locations(common, []) == [Location(1, 0, 40004, Cast16(|common|))]
    ensures Counters([]) == map[1 := 1]
    ensures End(common, []) == COMMON + |common|
  {
  }

  datatype SelectedHeader = SelectedHeader(unitId: byte, registers: seq<u16>)

  class ScanState {
    const options: Options

    // The scan control: asked to cancel, and bound to this scan
    var cancelled: bool
    var bound: bool

    var started: bool
    /** The endpoint of the session in use. */
    var endpoint: Option<ModbusEndpoint>
    var activeReader: LogicalRegisterReader?
    // What the active reader's callbacks go on with
    var goal: Goal
    var nextHeaderAddress: nat
    var selectedHeader: Option<SelectedHeader>
    var locations: seq<Location>
    var instances: map<u16, nat>
    var manufacturer: seq<byte>
    var model: seq<byte>
    var optionsValue: seq<byte>
    var version: seq<byte>
    var serialNumber: seq<byte>
    var currentAddress: nat
    var unitIndex: nat
    var retryCurrentUnitOnClosed: bool
    var finished: bool

    // What the session and the observer have seen
    var probes: seq<Probe>
    var chunks: seq<Read>
    var trace: seq<Emission>

    /** The abstract scan; every method moves it along, and `Valid` ties the fields to it. */
    ghost var scan: Scan

    function FoundStrings(): Strings
      reads `manufacturer, `model, `optionsValue, `version, `serialNumber
    {
      Strings(manufacturer, model, optionsValue, version, serialNumber)
    }

    /** The strings, locations and counters are those of the models read so far. */
    ghost predicate ChainFits()
      reads `scan, `locations, `instances, `currentAddress,
            `manufacturer, `model, `optionsValue, `version, `serialNumber
    {
      && locations == Locations(scan.common, scan.models)
      && instances == Counters(scan.models)
      && currentAddress == End(scan.common, scan.models)
      && FoundStrings() == StringsOf(scan.common)
    }

    /** The same with the location of the model whose payload is being read in advance. */
    ghost predicate ChainFitsAhead(id: u16, length: nat)
      reads `scan, `locations, `instances, `currentAddress, `nextHeaderAddress,
            `manufacturer, `model, `optionsValue, `version, `serialNumber
    {
      && locations == Locations(scan.common, scan.models) + [LocationAhead(scan, id, length)]
      && instances == Counters(scan.models)[id := Instances(scan.models, id) + 1]
      && currentAddress == End(scan.common, scan.models)
      && nextHeaderAddress == currentAddress + 2 + length
      && FoundStrings() == StringsOf(scan.common)
    }

    ghost predicate GoalFits()
      reads `goal, `scan, `locations, `instances, `currentAddress, `nextHeaderAddress,
            `manufacturer, `model, `optionsValue, `version, `serialNumber
    {
      match goal
      case CommonModel(_) => locations == [] && instances == map[] && scan.models == []
      case ModelHeader => ChainFits()
      case ModelPayload(id, length) => ChainFitsAhead(id, length)
    }

    /** The control, the logs and the selected unit. */
    ghost predicate LogsFit()
      reads `scan, `cancelled, `bound, `started, `endpoint, `finished, `selectedHeader, `probes, `chunks, `trace
    {
      && scan.cancelled == cancelled && scan.endpoint == endpoint
      && scan.probes == probes && scan.chunks == chunks && scan.trace == trace
      && scan.selected == (if selectedHeader.Some? then Some(selectedHeader.value.unitId) else None)
      && (bound <==> started && !finished)
      && (cancelled && started ==> finished)
      && (scan.phase.Finished? <==> finished)
      && (finished ==> started)
      && (scan.phase.Unstarted? <==> !started)
      && (scan.phase.Probing? || scan.phase.Walking? ==> endpoint.Some?)
    }

    ghost predicate Probing()
      reads `scan, `activeReader, `selectedHeader, `unitIndex, `retryCurrentUnitOnClosed, `locations, `instances
    {
      && scan.phase == ScanSpec.Probing(unitIndex, retryCurrentUnitOnClosed)
      && selectedHeader.None? && activeReader == null
      && locations == [] && instances == map[] && scan.models == []
    }

    ghost predicate Walking()
      reads this, activeReader
    {
      && selectedHeader.Some? && activeReader != null
      && !activeReader.finished && activeReader.remaining > 0
      && activeReader.unitId == selectedHeader.value.unitId
      && scan.phase == ScanSpec.Walking(goal, activeReader.Gathering())
      && GoalFits()
    }

    ghost predicate Valid()
      reads this, activeReader
    {
      && LogsFit()
      && match scan.phase
         case Unstarted =>
           && unitIndex == 0 && !retryCurrentUnitOnClosed
           && selectedHeader.None? && activeReader == null
           && locations == [] && instances == map[] && scan.models == []
         case Probing(_, _) => Probing()
         case Walking(_, _) => Walking()
         case Finished => activeReader == null
    }

    constructor (options: Options)
      ensures Valid() && scan == Initial && this.options == options
    {
      this.options := options;
      cancelled, bound, started, finished := false, false, false, false;
      endpoint := None;
      activeReader, goal, nextHeaderAddress, selectedHeader := null, ModelHeader, 0, None;
      locations, instances, currentAddress := [], map[], 0;
      manufacturer, model, optionsValue, version, serialNumber := [], [], [], [], [];
      unitIndex, retryCurrentUnitOnClosed := 0, false;
      probes, chunks, trace := [], [], [];
      scan := Initial;
    }

    /** The scan control's cancel. */
    method Cancel()
      requires Valid()
      modifies this, activeReader
      ensures Valid() && scan == Step(options, old(scan), ScanSpec.Cancel)
    {
      if cancelled {
        return;
      }
      cancelled := true;
      scan := scan.(cancelled := true);
      if bound {
        CompleteScan();
      }
    }

    method StartInLoop(acquired: Option<ModbusEndpoint>, env: Env)
      requires Valid() && !started
      modifies this
      ensures Valid() && scan == Step(options, old(scan), Start(acquired, env))
    {
      started := true;
      bound := true;
      if cancelled {
        CompleteScan();
      }
      if finished {
        return;
      }
      if acquired.None? {
        FailScan();
        return;
      }
      endpoint := acquired;
      scan := scan.(endpoint := acquired);
      if env.sessionClosed {
        var replaced := ReplaceClosedSession(env);
        if !replaced {
          return;
        }
      }
      ProbeNextUnit();
    }

    /** No unit has been selected yet and the scan goes on. */
    ghost predicate Sweeping()
      reads this
    {
      && Active()
      && selectedHeader.None? && activeReader == null
      && locations == [] && instances == map[] && scan.models == []
    }

    /** The scan goes on; its phase is being decided. */
    ghost predicate Active()
      reads `scan, `cancelled, `bound, `started, `endpoint, `finished, `selectedHeader, `probes, `chunks, `trace
    {
      && endpoint.Some? && scan.endpoint == endpoint
      && started && bound && !finished && !cancelled && !scan.phase.Finished? && !scan.cancelled
      && scan.probes == probes && scan.chunks == chunks && scan.trace == trace
      && scan.selected == (if selectedHeader.Some? then Some(selectedHeader.value.unitId) else None)
    }

    method ProbeNextUnit()
      requires Sweeping()
      modifies this
      ensures Valid()
      ensures scan == ProbeUnit(options, old(scan), old(unitIndex), old(retryCurrentUnitOnClosed))
    {
      if finished {
        return;
      }
      if options.fixedUnit.None? && unitIndex == |UnitIds()| {
        CompleteScan();
        return;
      }
      var unitId := UnitAt(options, unitIndex);
      probes := probes + [Probe(unitIndex, unitId)];
      scan := ProbeUnit(options, scan, unitIndex, retryCurrentUnitOnClosed);
    }

    method OnProbeResponse(registers: seq<u16>, env: Env)
      requires Valid() && (scan.phase.Finished? || scan.phase.Probing?)
      modifies this
      ensures Valid() && scan == Step(options, old(scan), Reply(registers, env))
    {
      if finished {
        return;
      }
      if !IsHeader(registers) {
        if options.fixedUnit.Some? {
          CompleteScan();
          return;
        }
        if env.sessionClosed {
          var replaced := ReplaceClosedSession(env);
          if !replaced {
            return;
          }
          AdvanceUnit(false);
          return;
        }
        AdvanceUnit(true);
        return;
      }
      selectedHeader := Some(SelectedHeader(UnitAt(options, unitIndex), registers));
      scan := scan.(selected := Some(UnitAt(options, unitIndex)));
      ReadCommonModel();
    }

    method OnProbeFailure(env: Env)
      requires Valid() && (scan.phase.Finished? || scan.phase.Probing?)
      modifies this
      ensures Valid() && scan == Step(options, old(scan), Failure(env))
    {
      if finished {
        return;
      }
      if options.fixedUnit.Some? {
        CompleteScan();
        return;
      }
      if env.sessionClosed {
        var replaced := ReplaceClosedSession(env);
        if !replaced {
          return;
        }
        if retryCurrentUnitOnClosed {
          retryCurrentUnitOnClosed := false;
          ProbeNextUnit();
          return;
        }
      }
      AdvanceUnit(false);
    }

    method AdvanceUnit(retry: bool)
      requires Sweeping()
      modifies this
      ensures Valid()
      ensures scan == ProbeUnit(options, old(scan), old(unitIndex) + 1, retry)
    {
      unitIndex := unitIndex + 1;
      retryCurrentUnitOnClosed := retry;
      ProbeNextUnit();
    }

    method ReplaceClosedSession(env: Env) returns (replaced: bool)
      requires Sweeping()
      modifies this
      requires env.sessionClosed
      ensures replaced == env.replacement.Some?
      ensures if replaced
              then Sweeping() && scan == Replaced(old(scan), env)
                   && unchanged(`unitIndex, `retryCurrentUnitOnClosed)
              else Valid() && scan == ScanSpec.Fail(old(scan))
    {
      if env.replacement.Some? {
        endpoint := env.replacement;
        scan := scan.(endpoint := env.replacement);
        return true;
      }
      FailScan();
      return false;
    }

    static predicate IsInRegisterSpan(options: Options, address: nat, count: nat) {
      address >= 40000 && address < 0x1_0000
      && address + count <= 0x1_0000
      && address + count - 40000 <= options.maxRegisterSpan
    }

    method ModelAddresses(modelLength: u16) returns (fits: bool, payloadAddress: nat, nextHeader: nat)
      ensures fits <==> InSpan(options, currentAddress, 2) && InSpan(options, currentAddress + 2, modelLength)
      ensures fits ==> payloadAddress == currentAddress + 2 && nextHeader == currentAddress + 2 + modelLength
    {
      var payload := currentAddress + 2;
      var next := payload + modelLength;
      payloadAddress, nextHeader := 0, 0;
      if payload > 0xffff_ffff || next > 0xffff_ffff {
        return false, 0, 0;
      }
      payloadAddress, nextHeader := payload, next;
      fits := IsInRegisterSpan(options, currentAddress, 2) && IsInRegisterSpan(options, payloadAddress, modelLength);
    }

    method ReadCommonModel()
      requires Active() && selectedHeader.Some? && IsHeader(selectedHeader.value.registers)
      requires locations == [] && instances == map[] && scan.models == [] && activeReader == null
      modifies this
      ensures Valid()
      ensures var length := old(selectedHeader.value.registers[3]);
              scan == if InSpan(options, COMMON, length)
                      then Fetch(old(scan), CommonModel(length), COMMON, length)
                      else ScanSpec.Complete(old(scan))
    {
      var commonLength := selectedHeader.value.registers[3];
      if !IsInRegisterSpan(options, 40004, commonLength) {
        CompleteScan();
        return;
      }
      goal := CommonModel(commonLength);
      ReadRegisters(40004, commonLength);
    }

    /** Starts a logical read for the goal just set. */
    method ReadRegisters(address: nat, count: nat)
      requires Active() && selectedHeader.Some? && count > 0 && GoalFits()
      modifies this
      ensures Valid()
      ensures scan == Fetch(old(scan), old(goal), address, count)
    {
      var reader := new LogicalRegisterReader(selectedHeader.value.unitId, address, count);
      activeReader := reader;
      var turn := reader.Next();
      TakeTurn(turn);
    }

    /** Issues the reader's chunk, or ends the scan when the reader has given up. */
    method TakeTurn(turn: Turn)
      requires Active() && GoalFits() && activeReader != null && selectedHeader.Some?
      requires activeReader.unitId == selectedHeader.value.unitId
      requires turn.Issue? ==> !activeReader.finished && activeReader.remaining > 0
      requires turn.Issue? ==> turn == TurnOf(activeReader.Gathering())
      requires turn.Issue? || turn.Refuse?
      modifies this, activeReader
      ensures Valid()
      ensures scan == if turn.Issue? then NextChunk(old(scan), old(goal), old(activeReader.Gathering()))
                      else ScanSpec.Complete(old(scan))
    {
      hide Locations, Counters, StringsOf, End;
      if turn.Issue? {
        chunks := chunks + [Read(activeReader.unitId, turn.address, turn.count)];
        scan := NextChunk(scan, goal, activeReader.Gathering());
      } else {
        CompleteScan();
      }
    }

    /** The reply to the chunk a reader has asked for, or a late one to a cancelled reader. */
    method OnReadReply(reader: LogicalRegisterReader, registers: seq<u16>, env: Env)
      requires Valid() && (scan.phase.Finished? || scan.phase.Walking?)
      requires if finished then reader.finished else reader == activeReader
      modifies this, reader
      ensures Valid() && scan == Step(options, old(scan), Reply(registers, env))
    {
      if finished {
        var ignored := reader.OnChunk(registers);
        return;
      }
      OnActiveChunk(registers);
    }

    method OnActiveChunk(registers: seq<u16>)
      requires Valid() && scan.phase.Walking?
      modifies this, activeReader
      ensures Valid() && scan == OnChunk(options, old(scan), registers)
    {
      hide Locations, Counters, StringsOf, End, Deliver;
      OnChunkTurns(options, scan, registers);
      var turn := activeReader.OnChunk(registers);
      assert GoalFits();
      if |registers| == ChunkSize(scan.phase.reader) {
        scan := scan.(received := scan.received + registers);
        assert GoalFits();
      }
      if turn.Succeed? {
        OnAllRegisters(turn.registers);
      } else {
        TakeTurn(turn);
      }
    }

    method OnReadFailure(reader: LogicalRegisterReader, env: Env)
      requires Valid() && (scan.phase.Finished? || scan.phase.Walking?)
      requires if finished then reader.finished else reader == activeReader
      modifies this, reader
      ensures Valid() && scan == Step(options, old(scan), Failure(env))
    {
      var turn := reader.Fail();
      if turn.Refuse? {
        CompleteScan();
      }
    }

    /** Between two logical reads. */
    ghost predicate Delivered()
      reads this
    {
      Active() && selectedHeader.Some? && activeReader != null
    }

    /** The success callback of the active reader. */
    method OnAllRegisters(registers: seq<u16>)
      requires Delivered() && GoalFits()
      modifies this, activeReader
      ensures Valid() && scan == Deliver(options, old(scan), old(goal), registers)
    {
      match goal
      case CommonModel(length) =>
        OnCommonModel(registers, length);
      case ModelHeader =>
        OnModelHeader(registers);
      case ModelPayload(id, length) =>
        OnModelPayload(registers, id, length);
    }

    method OnCommonModel(registers: seq<u16>, commonLength: nat)
      requires Delivered() && locations == [] && instances == map[] && scan.models == []
      modifies this, activeReader
      ensures Valid() && scan == Deliver(options, old(scan), CommonModel(commonLength), registers)
    {
      hide ReadHeader, ChainFits, GoalFits;
      if finished || |registers| != commonLength || |locations| >= options.maxModels {
        CompleteScan();
        return;
      }
      EnterCommonModel(registers, commonLength);
      ReadModelHeader();
    }

    /** The common model heads the locations. */
    method EnterCommonModel(registers: seq<u16>, commonLength: nat)
      requires locations == [] && instances == map[] && scan.models == [] && |registers| == commonLength
      modifies `locations, `instances, `currentAddress, `scan,
               `manufacturer, `model, `optionsValue, `version, `serialNumber
      ensures ChainFits() && scan == old(scan).(common := registers)
    {
      hide StringsOf, Text;
      DecodeStrings(registers);
      locations := locations + [Location(1, 0, 40004, Cast16(commonLength))];
      instances := instances[1 := 1];
      currentAddress := 40004 + commonLength;
      CommonModelAlone(registers);
      scan := scan.(common := registers);
    }

    method DecodeStrings(registers: seq<u16>)
      modifies `manufacturer, `model, `optionsValue, `version, `serialNumber
      ensures FoundStrings() == StringsOf(registers)
    {
      manufacturer := DecodeField(registers, 0, 16);
      model := DecodeField(registers, 16, 16);
      optionsValue := DecodeField(registers, 32, 8);
      version := DecodeField(registers, 40, 8);
      serialNumber := DecodeField(registers, 48, 16);
    }

    static method DecodeField(registers: seq<u16>, from: nat, count: nat) returns (decoded: seq<byte>)
      ensures decoded == Text(Field(registers, from, count))
    {
      decoded := DecodeSunSpecString(Field(registers, from, count));
    }

    method ReadModelHeader()
      requires Delivered() && ChainFits()
      modifies this, activeReader
      ensures Valid() && scan == ReadHeader(options, old(scan))
    {
      if finished || !IsInRegisterSpan(options, currentAddress, 2) {
        CompleteScan();
        return;
      }
      goal := ModelHeader;
      ReadRegisters(currentAddress, 2);
    }

    method OnModelHeader(header: seq<u16>)
      requires Delivered() && ChainFits()
      modifies this, activeReader
      ensures Valid() && scan == OnHeader(options, old(scan), header)
    {
      hide Counters, StringsOf, End, ReadHeader, Fetch;
      if finished || |header| != 2 {
        CompleteScan();
        return;
      }
      var modelId, modelLength := header[0], header[1];
      if modelId == 0xffff {
        if modelLength == 0 {
          EmitThing();
        } else {
          CompleteScan();
        }
        return;
      }
      if |locations| >= options.maxModels {
        CompleteScan();
        return;
      }
      var fits, payloadAddress, nextHeader := ModelAddresses(modelLength);
      if !fits {
        CompleteScan();
        return;
      }
      var instance := CountOf(instances, modelId);
      if instance > 0xffff {
        CompleteScan();
        return;
      }
      instances := instances[modelId := instance + 1];
      locations := locations + [Location(modelId, Cast16(instance), Cast16(payloadAddress), modelLength)];
      FollowModel(modelId, payloadAddress, nextHeader, modelLength);
    }

    /** Goes on with the payload of the model just entered, or with the next header. */
    method FollowModel(modelId: u16, payloadAddress: nat, nextHeader: nat, modelLength: u16)
      requires Delivered()
      requires locations == Locations(scan.common, scan.models) + [LocationAhead(scan, modelId, modelLength)]
      requires instances == Counters(scan.models)[modelId := Instances(scan.models, modelId) + 1]
      requires currentAddress == End(scan.common, scan.models) && FoundStrings() == StringsOf(scan.common)
      requires payloadAddress == currentAddress + 2 && nextHeader == payloadAddress + modelLength
      modifies this, activeReader
      ensures Valid()
      ensures scan == if modelLength == 0
                      then ReadHeader(options, old(scan).(models := old(scan).models + [Model(modelId, [])]))
                      else Fetch(old(scan), ModelPayload(modelId, modelLength), payloadAddress, modelLength)
    {
      hide Locations, Counters, StringsOf, End, ReadHeader;
      if modelLength == 0 {
        ModelJoins(scan, Model(modelId, []));
        scan := scan.(models := scan.models + [Model(modelId, [])]);
        currentAddress := nextHeader;
        ReadModelHeader();
        return;
      }
      goal := ModelPayload(modelId, modelLength);
      nextHeaderAddress := nextHeader;
      ReadRegisters(payloadAddress, modelLength);
    }

    method OnModelPayload(registers: seq<u16>, id: u16, modelLength: nat)
      requires Delivered() && ChainFitsAhead(id, modelLength)
      modifies this, activeReader
      ensures Valid() && scan == Deliver(options, old(scan), ModelPayload(id, modelLength), registers)
    {
      hide Locations, Counters, StringsOf, End, ReadHeader, Fetch;
      if |registers| != modelLength {
        CompleteScan();
        return;
      }
      ModelJoins(scan, Model(id, registers));
      scan := scan.(models := scan.models + [Model(id, registers)]);
      currentAddress := nextHeaderAddress;
      ReadModelHeader();
    }

    method EmitThing()
      requires Delivered() && ChainFits()
      modifies this, activeReader
      ensures Valid() && scan == Emit(old(scan))
    {
      if finished {
        return;
      }
      finished := true;
      var thing := Thing(InUseEndpoint(), selectedHeader.value.unitId, 40000, locations, FoundStrings());
      ReleaseResources();
      trace := trace + [Next(thing), Completed];
      scan := Emit(scan);
    }

    function InUseEndpoint(): ModbusEndpoint
      reads `endpoint
    {
      endpoint.GetOr(ModbusEndpoint("", 0))
    }

    method CompleteScan()
      requires started && (finished ==> Valid())
      requires !finished ==> Ending()
      modifies this, activeReader
      ensures Valid() && finished
      ensures scan == ScanSpec.Complete(old(scan))
    {
      if finished {
        return;
      }
      finished := true;
      ReleaseResources();
      trace := trace + [Completed];
      scan := ScanSpec.Complete(scan);
    }

    /** The logs agree, so the scan may end here. */
    ghost predicate Ending()
      reads `scan, `cancelled, `endpoint, `selectedHeader, `probes, `chunks, `trace
    {
      && scan.endpoint == endpoint
      && !scan.phase.Finished? && scan.cancelled == cancelled
      && scan.probes == probes && scan.chunks == chunks && scan.trace == trace
      && scan.selected == (if selectedHeader.Some? then Some(selectedHeader.value.unitId) else None)
    }

    method FailScan()
      requires started && !finished && Ending()
      modifies this, activeReader
      ensures Valid() && finished
      ensures scan == ScanSpec.Fail(old(scan))
    {
      if finished {
        return;
      }
      finished := true;
      ReleaseResources();
      trace := trace + [Errored];
      scan := ScanSpec.Fail(scan);
    }

    method ReleaseResources()
      modifies `activeReader, `bound, activeReader
      ensures activeReader == null && !bound
    {
      if activeReader != null {
        activeReader.Cancel();
        activeReader := null;
      }
      bound := false;
    }
  }
}
