/**
 * A SunSpec scan as a transition system, after the SunSpec Device Information Model Specification:
 * probe unit ids for the "SunS" marker at register 40000, read the common model, then follow the
 * chain of model headers to the end model.
 */
module ScanSpec {
  import opened Bytes

  // What a scan finds

  datatype Model = Model(id: u16, payload: seq<u16>)

  datatype Location = Location(id: u16, instance: u16, address: u16, length: u16)

  datatype ModbusEndpoint = ModbusEndpoint(address: string, port: u16)

  datatype Thing = Thing(
    endpoint: ModbusEndpoint,
    unit: byte,
    baseAddress: u16,
    locations: seq<Location>,
    strings: Strings)

  const BASE: nat := 40000
  const COMMON: nat := 40004
  const ADDRESSES: nat := 0x1_0000
  const CHUNK: nat := 125
  const END_ID: u16 := 0xffff

  /** A narrowing cast to 16 bits. */
  function Cast16(value: nat): u16 {
    if value < 0x1_0000 then value else value % 0x1_0000
  }

  /** The first place from `from` on that holds a NUL, or the end. */
  function NulFrom(bytes: seq<byte>, from: nat): (place: nat)
    requires from <= |bytes|
    ensures from <= place <= |bytes|
    decreases |bytes| - from
  {
    if from == |bytes| || bytes[from] == 0 then from else NulFrom(bytes, from + 1)
  }

  /** The bytes in front of the first NUL. */
  function BeforeNul(bytes: seq<byte>): seq<byte> {
    bytes[..NulFrom(bytes, 0)]
  }

  function Text(registers: seq<u16>): seq<byte> {
    BeforeNul(Serialize(registers))
  }

  /** The address right after the last model. */
  function End(common: seq<u16>, models: seq<Model>): nat {
    if models == [] then COMMON + |common|
    else End(common, models[..|models| - 1]) + 2 + |models[|models| - 1].payload|
  }

  function CountOf(counters: map<u16, nat>, id: u16): nat {
    if id in counters then counters[id] else 0
  }

  /** How many locations carry each id so far; the common model is one of id 1. */
  function Counters(models: seq<Model>): map<u16, nat> {
    if models == [] then map[1 := 1]
    else
      var earlier, id := Counters(models[..|models| - 1]), models[|models| - 1].id;
      earlier[id := CountOf(earlier, id) + 1]
  }

  function Instances(models: seq<Model>, id: u16): nat {
    CountOf(Counters(models), id)
  }

  function Locations(common: seq<u16>, models: seq<Model>): (locations: seq<Location>)
    ensures |locations| == |models| + 1
  {
    if models == [] then
      [Location(1, 0, 40004, Cast16(|common|))]
    else
      var earlier, last := models[..|models| - 1], models[|models| - 1];
      Locations(common, earlier)
      + [Location(last.id, Cast16(Instances(earlier, last.id)), Cast16(End(common, earlier) + 2), Cast16(|last.payload|))]
  }

  /** A string field of the common model; every common model a scan accepts has all of them. */
  function Field(common: seq<u16>, from: nat, count: nat): seq<u16> {
    if from + count <= |common| then common[from..from + count] else []
  }

  datatype Strings = Strings(
    manufacturer: seq<byte>,
    model: seq<byte>,
    options: seq<byte>,
    version: seq<byte>,
    serial: seq<byte>)

  function StringsOf(common: seq<u16>): Strings {
    Strings(Text(Field(common, 0, 16)), Text(Field(common, 16, 16)), Text(Field(common, 32, 8)),
            Text(Field(common, 40, 8)), Text(Field(common, 48, 16)))
  }

  function ThingOf(endpoint: ModbusEndpoint, unit: byte, common: seq<u16>, models: seq<Model>): Thing {
    Thing(endpoint, unit, 40000, Locations(common, models), StringsOf(common))
  }

  // The order in which unit ids are probed

  function Range(from: byte, to: byte): seq<byte>
    requires from <= to
  {
    seq(to - from, i requires 0 <= i < to - from => from + i)
  }

  function UnitIds(): seq<byte> {
    [1, 240, 126, 127, 100, 2, 247, 241, 128, 129, 3, 4, 5, 242, 243, 244]
    + Range(130, 136) + Range(6, 100) + Range(101, 126) + Range(136, 240) + [245, 246]
  }

  // The scan

  datatype Options = Options(maxModels: nat, maxRegisterSpan: nat, fixedUnit: Option<byte>)

  predicate ValidOptions(options: Options) {
    options.maxModels > 0 && options.maxRegisterSpan >= 4
  }

  datatype Read = Read(unit: byte, address: nat, count: nat)

  /** A read of four registers at 40000 from the unit at `index` in probing order. */
  datatype Probe = Probe(index: nat, unit: byte)

  /** A logical read under way: its next chunk starts at `next`, `remaining` registers are missing. */
  datatype Reader = Reader(next: nat, remaining: nat, registers: seq<u16>)

  /** What a logical read is for. */
  datatype Goal = CommonModel(length: nat) | ModelHeader | ModelPayload(id: u16, length: nat)

  datatype Phase =
    | Unstarted
    | Probing(index: nat, retry: bool)
    | Walking(goal: Goal, reader: Reader)
    | Finished

  datatype Emission = Next(thing: Thing) | Completed | Errored

  /**
   * `endpoint` is that of the session in use, `selected` is the unit whose header was accepted,
   * `probes` and `chunks` are the reads issued while probing and while walking the chain, `received`
   * is what the walk has received, and `common` and `models` are what that amounts to.
   */
  datatype Scan = Scan(
    phase: Phase,
    cancelled: bool,
    endpoint: Option<ModbusEndpoint>,
    common: seq<u16>,
    models: seq<Model>,
    selected: Option<byte>,
    probes: seq<Probe>,
    chunks: seq<Read>,
    received: seq<u16>,
    trace: seq<Emission>)

  const Initial := Scan(Unstarted, false, None, [], [], None, [], [], [], [])

  /** What the callbacks find: whether the session is closed, and the endpoint of a new one, if any can be had. */
  datatype Env = Env(sessionClosed: bool, replacement: Option<ModbusEndpoint>)

  datatype Event =
    | Start(session: Option<ModbusEndpoint>, env: Env)
    | Reply(registers: seq<u16>, env: Env)
    | Failure(env: Env)
    | Cancel

  predicate IsHeader(registers: seq<u16>) {
    && |registers| == 4
    && registers[0] == 0x5375 && registers[1] == 0x6e53
    && registers[2] == 1
    && (registers[3] == 65 || registers[3] == 66)
  }

  predicate InSpan(options: Options, address: nat, count: nat) {
    && BASE <= address < ADDRESSES
    && address + count <= ADDRESSES
    && address + count - BASE <= options.maxRegisterSpan
  }

  function Complete(s: Scan): Scan {
    if s.phase.Finished? then s else s.(phase := Finished, trace := s.trace + [Completed])
  }

  function Fail(s: Scan): Scan {
    if s.phase.Finished? then s else s.(phase := Finished, trace := s.trace + [Errored])
  }

  function Emit(s: Scan): Scan {
    if s.phase.Finished? then s
    else s.(phase := Finished, trace := s.trace + [Next(ThingOf(InUse(s), Selected(s), s.common, s.models)), Completed])
  }

  function InUse(s: Scan): ModbusEndpoint {
    s.endpoint.GetOr(ModbusEndpoint("", 0))
  }

  /** A closed session gives way to a new one. */
  function Replaced(s: Scan, env: Env): Scan {
    if env.sessionClosed && env.replacement.Some? then s.(endpoint := env.replacement) else s
  }

  function Selected(s: Scan): byte {
    s.selected.GetOr(0)
  }

  function UnitAt(options: Options, index: nat): byte {
    match options.fixedUnit
    case Some(unit) => unit
    case None => if index < |UnitIds()| then UnitIds()[index] else 0
  }

  function ProbeUnit(options: Options, s: Scan, index: nat, retry: bool): Scan {
    if options.fixedUnit.None? && index == |UnitIds()| then
      Complete(s)
    else
      s.(phase := Probing(index, retry), probes := s.probes + [Probe(index, UnitAt(options, index))])
  }

  function OnProbeFailure(options: Options, s: Scan, env: Env): Scan
    requires s.phase.Probing?
  {
    if options.fixedUnit.Some? then Complete(s)
    else if env.sessionClosed && env.replacement.None? then Fail(s)
    else if env.sessionClosed && s.phase.retry then ProbeUnit(options, Replaced(s, env), s.phase.index, false)
    else ProbeUnit(options, Replaced(s, env), s.phase.index + 1, false)
  }

  function OnProbeResponse(options: Options, s: Scan, registers: seq<u16>, env: Env): Scan
    requires s.phase.Probing?
  {
    if !IsHeader(registers) then
      if options.fixedUnit.Some? then Complete(s)
      else if env.sessionClosed && env.replacement.None? then Fail(s)
      else ProbeUnit(options, Replaced(s, env), s.phase.index + 1, !env.sessionClosed)
    else
      var s' := s.(selected := Some(UnitAt(options, s.phase.index)));
      if !InSpan(options, COMMON, registers[3]) then Complete(s')
      else Fetch(s', CommonModel(registers[3]), COMMON, registers[3])
  }

  /** Starts a logical read. */
  function Fetch(s: Scan, goal: Goal, address: nat, count: nat): Scan
    requires count > 0
  {
    NextChunk(s, goal, Reader(address, count, []))
  }

  function ChunkSize(reader: Reader): nat {
    if reader.remaining < CHUNK then reader.remaining else CHUNK
  }

  /** Reads at most 125 registers; a chunk beyond the address space fails the logical read. */
  function NextChunk(s: Scan, goal: Goal, reader: Reader): Scan
    requires reader.remaining > 0
  {
    if reader.next >= ADDRESSES || reader.next + ChunkSize(reader) > ADDRESSES then
      Complete(s)
    else
      s.(phase := Walking(goal, reader), chunks := s.chunks + [Read(Selected(s), reader.next, ChunkSize(reader))])
  }

  function OnChunk(options: Options, s: Scan, registers: seq<u16>): Scan
    requires s.phase.Walking?
  {
    var reader := s.phase.reader;
    if |registers| != ChunkSize(reader) then
      Complete(s)
    else
      var s' := s.(received := s.received + registers);
      var reader' := Reader(reader.next + |registers|, reader.remaining - |registers|, reader.registers + registers);
      if reader'.remaining == 0 then Deliver(options, s', s.phase.goal, reader'.registers)
      else NextChunk(s', s.phase.goal, reader')
  }

  function Deliver(options: Options, s: Scan, goal: Goal, registers: seq<u16>): Scan {
    match goal
    case CommonModel(length) =>
      if |registers| != length || options.maxModels == 0 then Complete(s)
      else ReadHeader(options, s.(common := registers))
    case ModelHeader =>
      OnHeader(options, s, registers)
    case ModelPayload(id, length) =>
      if |registers| != length then Complete(s)
      else ReadHeader(options, s.(models := s.models + [Model(id, registers)]))
  }

  function ReadHeader(options: Options, s: Scan): Scan {
    if !InSpan(options, End(s.common, s.models), 2) then Complete(s)
    else Fetch(s, ModelHeader, End(s.common, s.models), 2)
  }

  function OnHeader(options: Options, s: Scan, header: seq<u16>): Scan {
    if |header| != 2 then
      Complete(s)
    else if header[0] == END_ID then
      if header[1] == 0 then Emit(s) else Complete(s)
    else if |s.models| + 1 >= options.maxModels then
      Complete(s)
    else if !InSpan(options, End(s.common, s.models), 2) || !InSpan(options, End(s.common, s.models) + 2, header[1]) then
      Complete(s)
    else if Instances(s.models, header[0]) > 0xffff then
      Complete(s)
    else if header[1] == 0 then
      ReadHeader(options, s.(models := s.models + [Model(header[0], [])]))
    else
      Fetch(s, ModelPayload(header[0], header[1]), End(s.common, s.models) + 2, header[1])
  }

  function Step(options: Options, s: Scan, event: Event): Scan {
    match event
    case Start(session, env) =>
      if !s.phase.Unstarted? then s
      else if s.cancelled then Complete(s)
      else if session.None? then Fail(s)
      else if env.sessionClosed && env.replacement.None? then Fail(s.(endpoint := session))
      else ProbeUnit(options, Replaced(s.(endpoint := session), env), 0, false)
    case Reply(registers, env) =>
      if s.phase.Probing? then OnProbeResponse(options, s, registers, env)
      else if s.phase.Walking? then OnChunk(options, s, registers)
      else s
    case Failure(env) =>
      if s.phase.Probing? then OnProbeFailure(options, s, env)
      else if s.phase.Walking? then Complete(s)
      else s
    case Cancel =>
      if s.cancelled then s
      else if s.phase.Unstarted? then s.(cancelled := true)
      else Complete(s.(cancelled := true))
  }

  function Run(options: Options, s: Scan, events: seq<Event>): Scan
    decreases |events|
  {
    if events == [] then s else Run(options, Step(options, s, events[0]), events[1..])
  }
}
