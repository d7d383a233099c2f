/**
 * Scanning a fault-free device: the asynchronous scan, chunk by chunk and probe by probe, finds
 * what a direct reading of the device's registers finds.
 */
module ScanDevice {
  import opened Bytes
  import opened ScanSpec
  import opened ScanProperties
  import opened ScanTheorems

  type Memory = nat -> u16

  /** The registers behind each unit id; a unit that is not there answers with an exception. */
  type Device = byte -> Option<Memory>

  function Slice(memory: Memory, address: nat, count: nat): (registers: seq<u16>)
    ensures |registers| == count
  {
    seq(count, i requires 0 <= i < count => memory(address + i))
  }

  lemma SliceAppend(memory: Memory, address: nat, first: nat, second: nat)
    ensures Slice(memory, address, first) + Slice(memory, address + first, second) == Slice(memory, address, first + second)
  {
  }

  function AnswerRead(device: Device, read: Read): Option<seq<u16>> {
    match device(read.unit)
    case Some(memory) => Some(Slice(memory, read.address, read.count))
    case None => None
  }

  /** The read a scan is waiting for. */
  function PendingRead(options: Options, s: Scan): Read
    requires s.phase.Probing? || s.phase.Walking?
  {
    if s.phase.Probing? then Read(UnitAt(options, s.phase.index), BASE, 4)
    else Read(Selected(s), s.phase.reader.next, ChunkSize(s.phase.reader))
  }

  const Healthy := Env(false, None)

  function EventOf(answer: Option<seq<u16>>): Event {
    match answer
    case Some(registers) => Reply(registers, Healthy)
    case None => Failure(Healthy)
  }

  function NextEvent(options: Options, s: Scan, device: Device): Event
    requires s.phase.Probing? || s.phase.Walking?
  {
    EventOf(AnswerRead(device, PendingRead(options, s)))
  }

  // Runs against a device

  predicate Waits(s: Scan) {
    s.phase.Probing? || s.phase.Walking?
  }

  /** The scan goes from one state to the next on the device's answer. */
  ghost predicate Answered(options: Options, device: Device, states: seq<Scan>, i: nat)
    requires i + 1 < |states|
  {
    Waits(states[i]) && states[i + 1] == Step(options, states[i], NextEvent(options, states[i], device))
  }

  ghost predicate IsPath(options: Options, device: Device, states: seq<Scan>) {
    states != [] && forall i :: 0 <= i < |states| - 1 ==> Answered(options, device, states, i)
  }

  /** Answered by the device, the scan gets from one state to another. */
  ghost predicate Leads(options: Options, device: Device, s: Scan, t: Scan) {
    exists states :: IsPath(options, device, states) && states[0] == s && states[|states| - 1] == t
  }

  /** Answered by the device, the scan ends with this trace. */
  ghost predicate EndsWith(options: Options, device: Device, s: Scan, trace: seq<Emission>) {
    exists t :: Leads(options, device, s, t) && t.phase.Finished? && t.trace == trace
  }

  lemma StaysThere(options: Options, device: Device, s: Scan)
    ensures Leads(options, device, s, s)
  {
    assert IsPath(options, device, [s]);
  }

  lemma OneAnswer(options: Options, device: Device, s: Scan)
    requires Waits(s)
    ensures Leads(options, device, s, Step(options, s, NextEvent(options, s, device)))
  {
    var states := [s, Step(options, s, NextEvent(options, s, device))];
    assert Answered(options, device, states, 0);
    assert IsPath(options, device, states);
  }

  lemma LeadsOn(options: Options, device: Device, s: Scan, t: Scan, u: Scan)
    requires Leads(options, device, s, t) && Leads(options, device, t, u)
    ensures Leads(options, device, s, u)
  {
    hide Step;
    var front :| IsPath(options, device, front) && front[0] == s && front[|front| - 1] == t;
    var back :| IsPath(options, device, back) && back[0] == t && back[|back| - 1] == u;
    var states := front + back[1..];
    forall i | 0 <= i < |states| - 1
      ensures Answered(options, device, states, i)
    {
      if i < |front| - 1 {
        assert Answered(options, device, front, i);
      } else {
        assert Answered(options, device, back, i - (|front| - 1));
      }
    }
  }

  lemma EndsBehind(options: Options, device: Device, s: Scan, t: Scan, trace: seq<Emission>)
    requires Leads(options, device, s, t) && EndsWith(options, device, t, trace)
    ensures EndsWith(options, device, s, trace)
  {
    var u :| Leads(options, device, t, u) && u.phase.Finished? && u.trace == trace;
    LeadsOn(options, device, s, t, u);
  }

  lemma EndsHere(options: Options, device: Device, s: Scan)
    requires s.phase.Finished?
    ensures EndsWith(options, device, s, s.trace)
  {
    StaysThere(options, device, s);
  }

  // Reading the registers directly

  /** The models from `address` on up to the end model, after `found` models in front. */
  function ChainAt(options: Options, memory: Memory, address: nat, found: nat): Option<seq<Model>>
    decreases ADDRESSES - address
  {
    if !InSpan(options, address, 2) then
      None
    else if memory(address) == END_ID then
      if memory(address + 1) == 0 then Some([]) else None
    else if found >= options.maxModels || !InSpan(options, address + 2, memory(address + 1)) then
      None
    else
      match ChainAt(options, memory, address + 2 + memory(address + 1), found + 1)
      case None => None
      case Some(models) => Some([Model(memory(address), Slice(memory, address + 2, memory(address + 1)))] + models)
  }

  predicate Speaks(device: Device, unit: byte) {
    device(unit).Some? && IsHeader(Slice(device(unit).value, BASE, 4))
  }

  function ThingAt(options: Options, memory: Memory, endpoint: ModbusEndpoint, unit: byte): Option<Thing> {
    var length := memory(BASE + 3);
    if !InSpan(options, COMMON, length) then None
    else match ChainAt(options, memory, COMMON + length, 1)
    case None => None
    case Some(models) => Some(ThingOf(endpoint, unit, Slice(memory, COMMON, length), models))
  }

  /** The thing at the first unit, from `index` on in probing order, that speaks SunSpec. */
  function FirstThing(options: Options, device: Device, endpoint: ModbusEndpoint, index: nat): Option<Thing>
    decreases |UnitIds()| - index
  {
    if options.fixedUnit.None? && index >= |UnitIds()| then None
    else
      var unit := UnitAt(options, index);
      if Speaks(device, unit) then ThingAt(options, device(unit).value, endpoint, unit)
      else if options.fixedUnit.Some? then None
      else FirstThing(options, device, endpoint, index + 1)
  }

  function Outcome(thing: Option<Thing>): seq<Emission> {
    match thing
    case Some(thing) => [Next(thing), Completed]
    case None => [Completed]
  }

  function ChainOutcome(endpoint: ModbusEndpoint, unit: byte, common: seq<u16>, models: seq<Model>, rest: Option<seq<Model>>): seq<Emission> {
    match rest
    case Some(rest) => [Next(ThingOf(endpoint, unit, common, models + rest)), Completed]
    case None => [Completed]
  }

  // The scan reads what is there

  /** The same walk, having read more. */
  predicate SameWalk(s: Scan, s': Scan) {
    && s'.common == s.common && s'.models == s.models && s'.selected == s.selected && s'.endpoint == s.endpoint && s'.trace == s.trace
  }

  /** What a logical read will have gathered in the end. */
  function Gathered(memory: Memory, reader: Reader): seq<u16> {
    reader.registers + Slice(memory, reader.next, reader.remaining)
  }

  lemma GatheredByChunk(memory: Memory, reader: Reader)
    requires reader.remaining >= CHUNK
    ensures Gathered(memory, reader) == Gathered(memory,
              Reader(reader.next + CHUNK, reader.remaining - CHUNK, reader.registers + Slice(memory, reader.next, CHUNK)))
  {
  }

  lemma ContinueWalks(options: Options, s: Scan, registers: seq<u16>)
    requires ValidOptions(options) && Reached(options, s) && s.phase.Walking?
    requires |registers| == CHUNK < s.phase.reader.remaining
    ensures var reader := s.phase.reader;
            var next := OnChunk(options, s, registers);
            && SameWalk(s, next)
            && next.phase == Walking(s.phase.goal,
                 Reader(reader.next + CHUNK, reader.remaining - CHUNK, reader.registers + registers))
  {
    ReachedKeeps(options, s);
    OnChunkCases(options, s, registers);
  }

  /** Chunk by chunk the device's registers arrive and are put together. */
  lemma {:induction false} DriveRead(options: Options, s: Scan, device: Device, memory: Memory) returns (last: Scan)
    requires ValidOptions(options) && Reached(options, s) && s.phase.Walking?
    requires device(Selected(s)) == Some(memory)
    ensures Reached(options, last) && last.phase.Walking? && last.phase.goal == s.phase.goal && SameWalk(s, last)
    ensures last.phase.reader.remaining <= CHUNK
    ensures Gathered(memory, last.phase.reader) == Gathered(memory, s.phase.reader)
    ensures Leads(options, device, s, last)
    decreases s.phase.reader.remaining
  {
    hide Invariant, Run, Reached, Leads, EndsWith, OnHeader, Deliver, NextChunk, Slice;
    var reader := s.phase.reader;
    if reader.remaining <= CHUNK {
      last := s;
      StaysThere(options, device, s);
    } else {
      var event := Reply(Slice(memory, reader.next, CHUNK), Healthy);
      ReachedStep(options, s, event);
      ContinueWalks(options, s, event.registers);
      OneAnswer(options, device, s);
      last := DriveRead(options, Step(options, s, event), device, memory);
      LeadsOn(options, device, s, Step(options, s, event), last);
      GatheredByChunk(memory, reader);
    }
  }

  /** When a logical read has been answered in full, the scan acts on what has been gathered. */
  lemma DriveDelivers(options: Options, s: Scan, device: Device, memory: Memory) returns (s': Scan)
    requires ValidOptions(options) && Reached(options, s) && s.phase.Walking?
    requires device(Selected(s)) == Some(memory)
    ensures SameWalk(s, s') && s'.phase.Walking?
    ensures var after := Deliver(options, s', s.phase.goal, Gathered(memory, s.phase.reader));
            Reached(options, after) && Leads(options, device, s, after)
  {
    hide Run, Reached, Leads, EndsWith, OnHeader, Deliver, Slice;
    var last := DriveRead(options, s, device, memory);
    var registers := Slice(memory, last.phase.reader.next, last.phase.reader.remaining);
    s' := last.(received := last.received + registers);
    ReachedKeeps(options, last);
    ReachedStep(options, last, Reply(registers, Healthy));
    OnChunkCases(options, last, registers);
    OneAnswer(options, device, last);
    LeadsOn(options, device, s, last, Step(options, last, Reply(registers, Healthy)));
  }

  ghost predicate AtHeader(options: Options, s: Scan) {
    && ValidOptions(options) && Reached(options, s)
    && s.phase.Walking? && s.phase.goal.ModelHeader?
  }

  lemma HeaderReader(options: Options, s: Scan)
    requires AtHeader(options, s)
    ensures s.phase.reader == Reader(End(s.common, s.models), 2, [])
    ensures InSpan(options, End(s.common, s.models), 2) && s.trace == []
    ensures forall id :: Instances(s.models, id) <= 0xffff
  {
    ReachedKeeps(options, s);
    PrintedLength(s.common, s.models);
    assert s.received == s.common + PrintModels(s.models);
    ChainFits(s.common, s.models);
    forall id ensures Instances(s.models, id) <= 0xffff {
      InstancesCount(s.common, s.models, id);
    }
  }

  /** What the scan makes of the header at the end of the chain so far. */
  lemma DriveHeader(options: Options, s: Scan, device: Device, memory: Memory) returns (s': Scan)
    requires AtHeader(options, s) && device(Selected(s)) == Some(memory)
    ensures SameWalk(s, s') && s'.phase.Walking?
    ensures var at := End(s.common, s.models);
            var after := OnHeader(options, s', [memory(at), memory(at + 1)]);
            Reached(options, after) && Leads(options, device, s, after)
  {
    hide Invariant, Run, Reached, Leads, EndsWith, Fetch, NextChunk, ReadHeader, OnHeader;
    HeaderReader(options, s);
    var at := End(s.common, s.models);
    assert Gathered(memory, s.phase.reader) == [memory(at), memory(at + 1)];
    s' := DriveDelivers(options, s, device, memory);
  }

  /** A header in range whose model has not been read yet. */
  predicate Follows(options: Options, common: seq<u16>, models: seq<Model>, memory: Memory) {
    var at := End(common, models);
    && memory(at) != END_ID && |models| + 1 < options.maxModels
    && InSpan(options, at, 2) && InSpan(options, at + 2, memory(at + 1))
  }

  /** The model whose header is at the end of the chain so far. */
  function ModelAt(memory: Memory, address: nat): Model {
    Model(memory(address), Slice(memory, address + 2, memory(address + 1)))
  }

  lemma HeaderGoesOn(options: Options, s: Scan, memory: Memory)
    requires Follows(options, s.common, s.models, memory) && Instances(s.models, memory(End(s.common, s.models))) <= 0xffff
    ensures var at := End(s.common, s.models);
            OnHeader(options, s, [memory(at), memory(at + 1)]) ==
            if memory(at + 1) == 0 then ReadHeader(options, s.(models := s.models + [Model(memory(at), [])]))
            else Fetch(s, ModelPayload(memory(at), memory(at + 1)), at + 2, memory(at + 1))
  {
  }

  lemma PayloadFetched(options: Options, s: Scan, goal: Goal, address: nat, count: nat)
    requires s.phase.Walking? && 0 < count && address + count <= ADDRESSES
    ensures Fetch(s, goal, address, count).phase == Walking(goal, Reader(address, count, []))
    ensures SameWalk(s, Fetch(s, goal, address, count))
  {
  }

  /** `t` is the same walk as `s` with one more model read. */
  predicate Longer(s: Scan, t: Scan, model: Model) {
    && t.phase.Walking?
    && t.common == s.common && t.models == s.models + [model] && t.selected == s.selected && t.endpoint == s.endpoint && t.trace == s.trace
  }

  lemma DrivePayload(options: Options, s: Scan, device: Device, memory: Memory) returns (t: Scan)
    requires ValidOptions(options) && Reached(options, s) && s.phase.Walking? && s.phase.goal.ModelPayload?
    requires device(Selected(s)) == Some(memory)
    requires s.phase.reader.registers == [] && s.phase.reader.remaining == s.phase.goal.length
    ensures Longer(s, t, Model(s.phase.goal.id, Slice(memory, s.phase.reader.next, s.phase.goal.length)))
    ensures Reached(options, ReadHeader(options, t))
    ensures Leads(options, device, s, ReadHeader(options, t))
  {
    var s' := DriveDelivers(options, s, device, memory);
    var payload := Slice(memory, s.phase.reader.next, s.phase.goal.length);
    assert Gathered(memory, s.phase.reader) == payload;
    t := s'.(models := s'.models + [Model(s.phase.goal.id, payload)]);
  }

  lemma DriveBehindHeader(options: Options, s: Scan, device: Device, memory: Memory) returns (t: Scan)
    requires ValidOptions(options) && s.phase.Walking? && Follows(options, s.common, s.models, memory)
    requires Instances(s.models, memory(End(s.common, s.models))) <= 0xffff
    requires device(Selected(s)) == Some(memory)
    requires var at := End(s.common, s.models); Reached(options, OnHeader(options, s, [memory(at), memory(at + 1)]))
    ensures Longer(s, t, ModelAt(memory, End(s.common, s.models)))
    ensures Reached(options, ReadHeader(options, t))
    ensures var at := End(s.common, s.models);
            Leads(options, device, OnHeader(options, s, [memory(at), memory(at + 1)]), ReadHeader(options, t))
  {
    hide Invariant, Run, Reached, Leads, EndsWith, OnHeader, Deliver, Slice, Fetch, NextChunk, ReadHeader, Instances, End;
    var at := End(s.common, s.models);
    var id, length := memory(at), memory(at + 1);
    HeaderGoesOn(options, s, memory);
    if length == 0 {
      t := s.(models := s.models + [Model(id, [])]);
      StaysThere(options, device, ReadHeader(options, t));
    } else {
      PayloadFetched(options, s, ModelPayload(id, length), at + 2, length);
      t := DrivePayload(options, Fetch(s, ModelPayload(id, length), at + 2, length), device, memory);
    }
  }

  /** A model header in range leads, past the payload, to the header behind the payload. */
  lemma DriveModel(options: Options, s: Scan, device: Device, memory: Memory) returns (t: Scan)
    requires AtHeader(options, s) && device(Selected(s)) == Some(memory) && Follows(options, s.common, s.models, memory)
    ensures Longer(s, t, ModelAt(memory, End(s.common, s.models)))
    ensures Reached(options, ReadHeader(options, t))
    ensures Leads(options, device, s, ReadHeader(options, t))
  {
    hide Invariant, Run, Reached, Leads, EndsWith, Slice, Fetch, NextChunk, ReadHeader, OnHeader, Deliver, Instances;
    HeaderReader(options, s);
    var s' := DriveHeader(options, s, device, memory);
    t := DriveBehindHeader(options, s', device, memory);
    var at := End(s.common, s.models);
    LeadsOn(options, device, s, OnHeader(options, s', [memory(at), memory(at + 1)]), ReadHeader(options, t));
  }

  lemma ReadHeaderWalks(options: Options, t: Scan)
    requires t.phase.Walking? && InSpan(options, End(t.common, t.models), 2)
    ensures var next := ReadHeader(options, t);
            next.phase.Walking? && next.phase.goal.ModelHeader? && SameWalk(t, next)
  {
  }

  /** The header ends the scan, with a thing or without. */
  lemma HeaderEnds(options: Options, s: Scan, memory: Memory)
    requires s.phase.Walking? && s.trace == []
    requires InSpan(options, End(s.common, s.models), 2) && !Follows(options, s.common, s.models, memory)
    ensures var at := End(s.common, s.models);
            var after := OnHeader(options, s, [memory(at), memory(at + 1)]);
            && after.phase.Finished?
            && after.trace == if memory(at) == END_ID && memory(at + 1) == 0
                              then [Next(ThingOf(InUse(s), Selected(s), s.common, s.models)), Completed] else [Completed]
  {
    hide ThingOf, InUse, Selected, InSpan, Fetch, ReadHeader, Instances, End;
  }

  /** What reading the rest of the chain directly makes of a walk. */
  function DirectOutcome(options: Options, s: Scan, memory: Memory): seq<Emission> {
    ChainOutcome(InUse(s), Selected(s), s.common, s.models,
                 ChainAt(options, memory, End(s.common, s.models), |s.models| + 1))
  }

  lemma EndGrows(s: Scan, t: Scan, model: Model)
    requires Longer(s, t, model)
    ensures End(t.common, t.models) == End(s.common, s.models) + 2 + |model.payload|
  {
  }

  lemma OutcomeGrows(endpoint: ModbusEndpoint, unit: byte, common: seq<u16>, models: seq<Model>, model: Model, rest: Option<seq<Model>>)
    ensures ChainOutcome(endpoint, unit, common, models, if rest.Some? then Some([model] + rest.value) else None)
         == ChainOutcome(endpoint, unit, common, models + [model], rest)
  {
    if rest.Some? {
      assert (models + [model]) + rest.value == models + ([model] + rest.value);
    }
  }

  lemma ChainGoesOn(options: Options, s: Scan, t: Scan, memory: Memory)
    requires Follows(options, s.common, s.models, memory) && Longer(s, t, ModelAt(memory, End(s.common, s.models)))
    ensures DirectOutcome(options, s, memory) == DirectOutcome(options, t, memory)
    ensures End(t.common, t.models) > End(s.common, s.models)
  {
    var at := End(s.common, s.models);
    var model := ModelAt(memory, at);
    EndGrows(s, t, model);
    var rest := ChainAt(options, memory, End(t.common, t.models), |t.models| + 1);
    assert ChainAt(options, memory, at, |s.models| + 1) == if rest.Some? then Some([model] + rest.value) else None;
    OutcomeGrows(InUse(s), Selected(s), s.common, s.models, model, rest);
  }

  /** From a model header on, the scan ends with what reading the chain directly finds. */
  lemma {:induction false} WalkChain(options: Options, s: Scan, device: Device, memory: Memory)
    requires AtHeader(options, s) && device(Selected(s)) == Some(memory)
    ensures EndsWith(options, device, s, DirectOutcome(options, s, memory))
    decreases ADDRESSES - End(s.common, s.models), 1
  {
    HeaderReader(options, s);
    if Follows(options, s.common, s.models, memory) {
      var t := DriveModel(options, s, device, memory);
      ChainGoesOn(options, s, t, memory);
      WalkOn(options, t, device, memory);
      EndsBehind(options, device, s, ReadHeader(options, t), DirectOutcome(options, s, memory));
    } else {
      ChainStops(options, s, device, memory);
    }
  }

  lemma ChainStops(options: Options, s: Scan, device: Device, memory: Memory)
    requires AtHeader(options, s) && device(Selected(s)) == Some(memory)
    requires InSpan(options, End(s.common, s.models), 2) && s.trace == [] && !Follows(options, s.common, s.models, memory)
    ensures EndsWith(options, device, s, DirectOutcome(options, s, memory))
  {
    hide Invariant, Run, Reached, Leads, EndsWith, Slice, ChainAt, Fetch, NextChunk, ReadHeader, OnHeader, Deliver;
    var at := End(s.common, s.models);
    var s' := DriveHeader(options, s, device, memory);
    HeaderEnds(options, s', memory);
    var after := OnHeader(options, s', [memory(at), memory(at + 1)]);
    DirectStops(options, s, memory);
    EndsHere(options, device, after);
    EndsBehind(options, device, s, after, after.trace);
  }

  lemma DirectStops(options: Options, s: Scan, memory: Memory)
    requires InSpan(options, End(s.common, s.models), 2) && !Follows(options, s.common, s.models, memory)
    ensures var at := End(s.common, s.models);
            DirectOutcome(options, s, memory) ==
            if memory(at) == END_ID && memory(at + 1) == 0 then [Next(ThingOf(InUse(s), Selected(s), s.common, s.models)), Completed]
            else [Completed]
  {
    hide Instances, Locations, Slice;
    assert s.models + [] == s.models;
  }

  /** The same between two models, where the next header may be out of the span. */
  lemma {:induction false} WalkOn(options: Options, t: Scan, device: Device, memory: Memory)
    requires ValidOptions(options) && t.phase.Walking? && t.trace == [] && device(Selected(t)) == Some(memory)
    requires Reached(options, ReadHeader(options, t))
    ensures EndsWith(options, device, ReadHeader(options, t), DirectOutcome(options, t, memory))
    decreases ADDRESSES - End(t.common, t.models), 2
  {
    hide Invariant, Run, Slice, Reached, Leads, EndsWith, Fetch, NextChunk;
    if InSpan(options, End(t.common, t.models), 2) {
      ReadHeaderWalks(options, t);
      WalkChain(options, ReadHeader(options, t), device, memory);
    } else {
      assert ReadHeader(options, t).trace == [Completed] == DirectOutcome(options, t, memory);
      EndsHere(options, device, ReadHeader(options, t));
    }
  }

  /** The walk behind an accepted header. */
  lemma DriveCommon(options: Options, s: Scan, device: Device, memory: Memory)
    requires ValidOptions(options) && Reached(options, s)
    requires s.phase.Walking? && s.phase.goal.CommonModel? && s.trace == [] && s.models == []
    requires device(Selected(s)) == Some(memory)
    requires s.phase.reader == Reader(COMMON, s.phase.goal.length, [])
    ensures var length := s.phase.goal.length;
            EndsWith(options, device, s,
              ChainOutcome(InUse(s), Selected(s), Slice(memory, COMMON, length), [], ChainAt(options, memory, COMMON + length, 1)))
  {
    hide Invariant, Run, Reached, Leads, EndsWith, Slice, ChainAt, Fetch, NextChunk, ReadHeader, Deliver;
    var common := Slice(memory, COMMON, s.phase.goal.length);
    assert Gathered(memory, s.phase.reader) == common;
    var s' := DriveDelivers(options, s, device, memory);
    CommonDelivered(options, s', common);
    var t := s'.(common := common);
    assert t.models == [] && End(t.common, t.models) == COMMON + |common|;
    WalkOn(options, t, device, memory);
    EndsBehind(options, device, s, ReadHeader(options, t), DirectOutcome(options, t, memory));
  }

  lemma CommonDelivered(options: Options, s: Scan, common: seq<u16>)
    requires ValidOptions(options)
    ensures Deliver(options, s, CommonModel(|common|), common) == ReadHeader(options, s.(common := common))
    ensures End(common, []) == COMMON + |common|
  {
  }

  /** The first unit that speaks decides the outcome. */
  lemma DriveSpeaking(options: Options, s: Scan, device: Device)
    requires ValidOptions(options) && Reached(options, s) && s.phase.Probing?
    requires Speaks(device, UnitAt(options, s.phase.index))
    ensures var unit := UnitAt(options, s.phase.index);
            EndsWith(options, device, s, Outcome(ThingAt(options, device(unit).value, InUse(s), unit)))
  {
    hide Run, Reached, Leads, EndsWith, ChainAt, ReadHeader, OnHeader, Deliver, ThingOf;
    var unit := UnitAt(options, s.phase.index);
    var memory := device(unit).value;
    var event := Reply(Slice(memory, BASE, 4), Healthy);
    var length := memory(BASE + 3);
    ReachedKeeps(options, s);
    ReachedStep(options, s, event);
    var next := Step(options, s, event);
    OneAnswer(options, device, s);
    if InSpan(options, COMMON, length) {
      DriveCommon(options, next, device, memory);
      var rest := ChainAt(options, memory, COMMON + length, 1);
      assert rest.Some? ==> [] + rest.value == rest.value;
    } else {
      EndsHere(options, device, next);
    }
    EndsBehind(options, device, s, next, Outcome(ThingAt(options, memory, InUse(s), unit)));
  }

  lemma DriveSilent(options: Options, s: Scan, device: Device)
    requires ValidOptions(options) && Reached(options, s) && s.phase.Probing?
    requires !Speaks(device, UnitAt(options, s.phase.index))
    ensures var next := Step(options, s, NextEvent(options, s, device));
            && Reached(options, next) && next.trace == (if next.phase.Finished? then [Completed] else [])
            && Leads(options, device, s, next) && next.endpoint == s.endpoint
            && if options.fixedUnit.Some? || s.phase.index == 246 then next.phase.Finished?
               else next.phase.Probing? && next.phase.index == s.phase.index + 1
  {
    hide Run, Reached, Leads, EndsWith, OnHeader, Deliver, Fetch, IsHeader;
    ReachedKeeps(options, s);
    ReachedStep(options, s, NextEvent(options, s, device));
    OneAnswer(options, device, s);
    ProbingOrderIsPermutation();
  }

  lemma {:induction false} DriveSweep(options: Options, s: Scan, device: Device)
    requires ValidOptions(options) && Reached(options, s) && s.phase.Probing?
    ensures EndsWith(options, device, s, Outcome(FirstThing(options, device, InUse(s), s.phase.index)))
    decreases |UnitIds()| - s.phase.index
  {
    hide Run, Reached, Leads, EndsWith, OnHeader, Deliver, Fetch, ThingAt, Step;
    ReachedKeeps(options, s);
    ProbingOrderIsPermutation();
    if Speaks(device, UnitAt(options, s.phase.index)) {
      DriveSpeaking(options, s, device);
    } else {
      DriveSilent(options, s, device);
      var next := Step(options, s, NextEvent(options, s, device));
      if next.phase.Probing? {
        DriveSweep(options, next, device);
      } else {
        EndsHere(options, device, next);
      }
      EndsBehind(options, device, s, next, Outcome(FirstThing(options, device, InUse(s), s.phase.index)));
    }
  }

  /** The scan run to its end, each read answered by the device. */
  ghost function Drive(options: Options, s: Scan, device: Device): Scan
    requires ValidOptions(options) && Reached(options, s)
    decreases RepliesLeft(s)
  {
    if s.phase.Probing? || s.phase.Walking? then
      var event := NextEvent(options, s, device);
      ReachedKeeps(options, s);
      ReplyMakesProgress(options, s, event);
      ReachedStep(options, s, event);
      Drive(options, Step(options, s, event), device)
    else
      s
  }

  ghost function DriveFromStart(options: Options, device: Device, endpoint: ModbusEndpoint): Scan
    requires ValidOptions(options)
  {
    ReachedInitially(options);
    ReachedStep(options, Initial, Start(Some(endpoint), Healthy));
    Drive(options, Step(options, Initial, Start(Some(endpoint), Healthy)), device)
  }

  lemma {:induction false} PathIsDriven(options: Options, device: Device, states: seq<Scan>)
    requires ValidOptions(options) && IsPath(options, device, states) && Reached(options, states[0])
    requires states[|states| - 1].phase.Finished?
    ensures Drive(options, states[0], device) == states[|states| - 1]
    decreases |states|
  {
    if |states| > 1 {
      var rest := states[1..];
      assert Answered(options, device, states, 0);
      ReachedStep(options, states[0], NextEvent(options, states[0], device));
      assert IsPath(options, device, rest) by {
        forall i | 0 <= i < |rest| - 1
          ensures Answered(options, device, rest, i)
        {
          assert Answered(options, device, states, i + 1);
        }
      }
      PathIsDriven(options, device, rest);
    }
  }

  lemma EndIsDriven(options: Options, device: Device, s: Scan, trace: seq<Emission>)
    requires ValidOptions(options) && Reached(options, s) && EndsWith(options, device, s, trace)
    ensures Drive(options, s, device).trace == trace
  {
    var t :| Leads(options, device, s, t) && t.phase.Finished? && t.trace == trace;
    var states :| IsPath(options, device, states) && states[0] == s && states[|states| - 1] == t;
    PathIsDriven(options, device, states);
  }

  /**
   * Scanning a fault-free device emits exactly what reading its registers directly finds: the
   * first unit in probing order that speaks SunSpec, its common model and its whole chain, or
   * nothing.
   */
  lemma ScanReadsTheDevice(options: Options, device: Device, endpoint: ModbusEndpoint)
    requires ValidOptions(options)
    ensures DriveFromStart(options, device, endpoint).trace == Outcome(FirstThing(options, device, endpoint, 0))
  {
    var start := Start(Some(endpoint), Healthy);
    ReachedInitially(options);
    ReachedStep(options, Initial, start);
    ProbingOrderIsPermutation();
    DriveSweep(options, Step(options, Initial, start), device);
    EndIsDriven(options, device, Step(options, Initial, start), Outcome(FirstThing(options, device, endpoint, 0)));
  }

  // The register image of a device

  function Image(common: seq<u16>, models: seq<Model>): seq<u16> {
    [0x5375, 0x6e53, 1, Cast16(|common|)] + common + PrintModels(models) + EndModel
  }

  ghost predicate Printable(common: seq<u16>, models: seq<Model>) {
    && (|common| == 65 || |common| == 66)
    && (forall i :: 0 <= i < |models| ==> models[i].id != END_ID && |models[i].payload| < 0x1_0000)
    && |Image(common, models)| <= ADDRESSES - BASE
  }

  ghost predicate HoldsAt(memory: Memory, address: nat, registers: seq<u16>) {
    Slice(memory, address, |registers|) == registers
  }

  lemma HoldsParts(memory: Memory, address: nat, front: seq<u16>, back: seq<u16>)
    requires HoldsAt(memory, address, front + back)
    ensures HoldsAt(memory, address, front) && HoldsAt(memory, address + |front|, back)
  {
    SliceAppend(memory, address, |front|, |back|);
    var all := Slice(memory, address, |front| + |back|);
    assert all[..|front|] == front && all[|front|..] == back;
  }

  lemma {:induction false} PrintFront(model: Model, models: seq<Model>)
    ensures PrintModels([model] + models) == PrintModel(model) + PrintModels(models)
    decreases |models|
  {
    if models == [] {
      PrintAppend([], model);
      assert [] + [model] == [model] + models;
    } else {
      var earlier, last := models[..|models| - 1], models[|models| - 1];
      var longer := [model] + models;
      assert longer[..|models|] == [model] + earlier && longer[|models|] == last;
      PrintFront(model, earlier);
      Associate(PrintModel(model), PrintModels(earlier), PrintModel(last));
    }
  }

  lemma Associate(first: seq<u16>, second: seq<u16>, third: seq<u16>)
    ensures (first + second) + third == first + (second + third)
  {
  }

  /** Reading back a printed chain finds its models, exactly when it fits the limits. */
  lemma {:induction false} ReadPrintedChain(options: Options, memory: Memory, address: nat, found: nat, models: seq<Model>)
    requires forall i :: 0 <= i < |models| ==> models[i].id != END_ID && |models[i].payload| < 0x1_0000
    requires HoldsAt(memory, address, PrintModels(models) + EndModel)
    requires BASE <= address && address + |PrintModels(models)| + 2 <= ADDRESSES && found <= options.maxModels
    ensures ChainAt(options, memory, address, found) ==
            if address + |PrintModels(models)| + 2 - BASE <= options.maxRegisterSpan && found + |models| <= options.maxModels
            then Some(models) else None
    decreases |models|
  {
    if models == [] {
      assert Slice(memory, address, 2) == EndModel by { assert [] + EndModel == EndModel; }
      assert memory(address) == Slice(memory, address, 2)[0] && memory(address + 1) == Slice(memory, address, 2)[1];
    } else {
      var model, rest := models[0], models[1..];
      assert models == [model] + rest;
      HoldsModel(memory, address, model, rest);
      PrintFront(model, rest);
      if found < options.maxModels {
        ReadPrintedChain(options, memory, address + 2 + |model.payload|, found + 1, rest);
      }
    }
  }

  /** The front model of a printed chain is found where the chain starts, the others behind it. */
  lemma HoldsModel(memory: Memory, address: nat, model: Model, rest: seq<Model>)
    requires |model.payload| < 0x1_0000
    requires HoldsAt(memory, address, PrintModels([model] + rest) + EndModel)
    ensures memory(address) == model.id && memory(address + 1) == |model.payload|
    ensures ModelAt(memory, address) == model
    ensures HoldsAt(memory, address + 2 + |model.payload|, PrintModels(rest) + EndModel)
  {
    var header, behind := [model.id, Cast16(|model.payload|)], PrintModels(rest) + EndModel;
    PrintFront(model, rest);
    assert PrintModels([model] + rest) + EndModel == header + (model.payload + behind);
    HoldsParts(memory, address, header, model.payload + behind);
    HoldsParts(memory, address + 2, model.payload, behind);
    assert memory(address) == Slice(memory, address, 2)[0] && memory(address + 1) == Slice(memory, address, 2)[1];
  }

  /** The limits of a scan, in terms of what is laid out. */
  predicate WithinLimits(options: Options, common: seq<u16>, models: seq<Model>) {
    && |Image(common, models)| <= options.maxRegisterSpan
    && |models| + 1 <= options.maxModels
  }

  lemma ReadPrintedImage(options: Options, memory: Memory, endpoint: ModbusEndpoint, unit: byte, common: seq<u16>, models: seq<Model>)
    requires ValidOptions(options) && Printable(common, models)
    requires HoldsAt(memory, BASE, Image(common, models))
    ensures IsHeader(Slice(memory, BASE, 4))
    ensures ThingAt(options, memory, endpoint, unit) ==
            if WithinLimits(options, common, models) then Some(ThingOf(endpoint, unit, common, models)) else None
  {
    var marker := [0x5375, 0x6e53, 1, Cast16(|common|)];
    var chain := PrintModels(models) + EndModel;
    assert Image(common, models) == marker + (common + chain);
    HoldsParts(memory, BASE, marker, common + chain);
    HoldsParts(memory, COMMON, common, chain);
    assert memory(BASE + 3) == Slice(memory, BASE, 4)[3];
    ReadPrintedChain(options, memory, COMMON + |common|, 1, models);
  }

  lemma {:induction false} FirstSpeaking(options: Options, device: Device, endpoint: ModbusEndpoint, from: nat, index: nat)
    requires from <= index
    requires if options.fixedUnit.Some? then index == 0 else index < |UnitIds()|
    requires Speaks(device, UnitAt(options, index))
    requires forall i :: from <= i < index ==> !Speaks(device, UnitAt(options, i))
    ensures var unit := UnitAt(options, index);
            FirstThing(options, device, endpoint, from) == ThingAt(options, device(unit).value, endpoint, unit)
    decreases index - from
  {
    if from < index {
      FirstSpeaking(options, device, endpoint, from + 1, index);
    }
  }

  /**
   * The first unit in probing order with a SunSpec header decides the scan: it emits that unit's
   * thing exactly when its common model and chain can be read to the end, whatever units follow.
   */
  lemma FirstHeaderDecides(options: Options, device: Device, endpoint: ModbusEndpoint, index: nat)
    requires ValidOptions(options)
    requires if options.fixedUnit.Some? then index == 0 else index < |UnitIds()|
    requires Speaks(device, UnitAt(options, index))
    requires forall i :: 0 <= i < index ==> !Speaks(device, UnitAt(options, i))
    ensures var unit := UnitAt(options, index);
            DriveFromStart(options, device, endpoint).trace == Outcome(ThingAt(options, device(unit).value, endpoint, unit))
  {
    hide Drive, DriveFromStart, ThingAt;
    ScanReadsTheDevice(options, device, endpoint);
    FirstSpeaking(options, device, endpoint, 0, index);
  }

  /** The locations of a layout point at its models' payloads, in order. */
  lemma {:induction false} LocationsFindModels(memory: Memory, common: seq<u16>, models: seq<Model>, j: nat)
    requires |common| >= 65 && COMMON + |common + PrintModels(models)| < ADDRESSES && j < |models|
    requires HoldsAt(memory, COMMON, common + PrintModels(models))
    ensures var location := Locations(common, models)[j + 1];
            && location.id == models[j].id && location.length == |models[j].payload|
            && HoldsAt(memory, location.address, models[j].payload)
    decreases |models|
  {
    hide HoldsAt;
    var earlier, last := models[..|models| - 1], models[|models| - 1];
    var front := common + PrintModels(earlier);
    assert common + PrintModels(models) == front + PrintModel(last);
    HoldsParts(memory, COMMON, front, PrintModel(last));
    PrintedLength(common, earlier);
    PrintedLength(common, models);
    LastLocation(common, models);
    if j < |earlier| {
      LocationsFindModels(memory, common, earlier, j);
    } else {
      HoldsParts(memory, COMMON + |front|, [last.id, Cast16(|last.payload|)], last.payload);
    }
  }

  /**
   * Printing a device and scanning it: for every common model and every list of models that can
   * be laid out in the address space, the scan of a unit that holds the layout emits exactly the
   * thing laid out when the layout keeps the limits, and nothing otherwise.
   */
  lemma ScanOfPrintedDevice(options: Options, device: Device, endpoint: ModbusEndpoint, index: nat, common: seq<u16>, models: seq<Model>)
    requires ValidOptions(options) && Printable(common, models)
    requires if options.fixedUnit.Some? then index == 0 else index < |UnitIds()|
    requires device(UnitAt(options, index)).Some?
    requires HoldsAt(device(UnitAt(options, index)).value, BASE, Image(common, models))
    requires forall i :: 0 <= i < index ==> !Speaks(device, UnitAt(options, i))
    ensures DriveFromStart(options, device, endpoint).trace ==
            if WithinLimits(options, common, models)
            then [Next(ThingOf(endpoint, UnitAt(options, index), common, models)), Completed]
            else [Completed]
  {
    hide Drive, DriveFromStart, ThingAt, Slice;
    var unit := UnitAt(options, index);
    ReadPrintedImage(options, device(unit).value, endpoint, unit, common, models);
    FirstHeaderDecides(options, device, endpoint, index);
  }

  // The first whole chain

  /** The thing at the first unit, from `index` on in probing order, whose whole chain can be read. */
  function FirstWhole(options: Options, device: Device, endpoint: ModbusEndpoint, index: nat): Option<Thing>
    decreases |UnitIds()| - index
  {
    if index >= |UnitIds()| then None
    else
      var unit := UnitIds()[index];
      if Speaks(device, unit) && ThingAt(options, device(unit).value, endpoint, unit).Some?
      then ThingAt(options, device(unit).value, endpoint, unit)
      else FirstWhole(options, device, endpoint, index + 1)
  }

  /** The first unit with a header, from `index` on, has a whole chain. */
  ghost predicate FirstSpeakerIsWhole(options: Options, device: Device, endpoint: ModbusEndpoint, index: nat) {
    exists i :: index <= i < |UnitIds()|
      && Speaks(device, UnitIds()[i])
      && (forall k :: index <= k < i ==> !Speaks(device, UnitIds()[k]))
      && ThingAt(options, device(UnitIds()[i]).value, endpoint, UnitIds()[i]).Some?
  }

  lemma {:induction false} FirstWholeExactly(options: Options, device: Device, endpoint: ModbusEndpoint, index: nat)
    requires options.fixedUnit.None?
    ensures FirstThing(options, device, endpoint, index) == FirstWhole(options, device, endpoint, index)
       <==> FirstSpeakerIsWhole(options, device, endpoint, index) || FirstWhole(options, device, endpoint, index) == None
    decreases |UnitIds()| - index
  {
    hide ThingAt, UnitIds, IsHeader, Slice;
    if index < |UnitIds()| {
      if Speaks(device, UnitIds()[index]) {
        assert FirstSpeakerIsWhole(options, device, endpoint, index)
          <==> ThingAt(options, device(UnitIds()[index]).value, endpoint, UnitIds()[index]).Some?;
      } else {
        FirstWholeExactly(options, device, endpoint, index + 1);
        SpeakerBehind(options, device, endpoint, index);
      }
    }
  }

  lemma SpeakerBehind(options: Options, device: Device, endpoint: ModbusEndpoint, index: nat)
    requires index < |UnitIds()| && !Speaks(device, UnitIds()[index])
    ensures FirstSpeakerIsWhole(options, device, endpoint, index) <==> FirstSpeakerIsWhole(options, device, endpoint, index + 1)
  {
    hide ThingAt, UnitIds, IsHeader, Slice;
    if FirstSpeakerIsWhole(options, device, endpoint, index + 1) {
      var i :| index + 1 <= i < |UnitIds()| && Speaks(device, UnitIds()[i])
        && (forall k :: index + 1 <= k < i ==> !Speaks(device, UnitIds()[k]))
        && ThingAt(options, device(UnitIds()[i]).value, endpoint, UnitIds()[i]).Some?;
      assert forall k :: index <= k < i ==> !Speaks(device, UnitIds()[k]);
    }
  }

  /**
   * A sweep finds the first unit with a whole chain exactly when the first unit with a header has
   * one, or no unit has.
   */
  lemma FindsFirstWholeExactly(options: Options, device: Device, endpoint: ModbusEndpoint)
    requires ValidOptions(options) && options.fixedUnit.None?
    ensures DriveFromStart(options, device, endpoint).trace == Outcome(FirstWhole(options, device, endpoint, 0))
       <==> FirstSpeakerIsWhole(options, device, endpoint, 0) || FirstWhole(options, device, endpoint, 0) == None
  {
    hide Drive, DriveFromStart, FirstThing, FirstWhole, FirstSpeakerIsWhole;
    ScanReadsTheDevice(options, device, endpoint);
    FirstWholeExactly(options, device, endpoint, 0);
  }

  /** Registers with a header, a blank common model and then this header. */
  function BareMemory(id: u16, length: u16): Memory {
    (address: nat) =>
      if address == 40000 then 0x5375 else if address == 40001 then 0x6e53
      else if address == 40002 then 1 else if address == 40003 then 65
      else if address == 40069 then id else if address == 40070 then length
      else 0
  }

  /** The end model at unit 1 has a length, so its chain has no end; the chain at unit 240 has. */
  function BrokenThenWhole(): Device {
    (unit: byte) =>
      if unit == 1 then Some(BareMemory(END_ID, 1)) else if unit == 240 then Some(BareMemory(END_ID, 0)) else None
  }

  lemma BareMemoryReads(options: Options, endpoint: ModbusEndpoint, unit: byte, length: u16)
    requires options.maxRegisterSpan >= 71
    ensures IsHeader(Slice(BareMemory(END_ID, length), BASE, 4))
    ensures ThingAt(options, BareMemory(END_ID, length), endpoint, unit).Some? <==> length == 0
  {
    hide Slice;
    var memory := BareMemory(END_ID, length);
    assert Slice(memory, BASE, 4) == [memory(40000), memory(40001), memory(40002), memory(40003)] by {
      SliceOfFour(memory);
    }
    assert memory(40069) == END_ID && memory(40070) == length;
  }

  lemma SliceOfFour(memory: Memory)
    ensures Slice(memory, BASE, 4) == [memory(BASE), memory(BASE + 1), memory(BASE + 2), memory(BASE + 3)]
  {
  }

  /** A device at which a sweep misses the one whole chain there is. */
  lemma WholeChainMissed(options: Options, endpoint: ModbusEndpoint)
    requires ValidOptions(options) && options.fixedUnit.None? && options.maxRegisterSpan >= 71
    ensures FirstWhole(options, BrokenThenWhole(), endpoint, 0).Some?
    ensures DriveFromStart(options, BrokenThenWhole(), endpoint).trace == [Completed]
  {
    hide Drive, DriveFromStart, ThingAt, Slice, BareMemory;
    var device := BrokenThenWhole();
    ProbingOrderIsPermutation();
    UnitAtPlace(0);
    UnitAtPlace(1);
    BareMemoryReads(options, endpoint, 1, 1);
    BareMemoryReads(options, endpoint, 240, 0);
    assert device(1) == Some(BareMemory(END_ID, 1)) && device(240) == Some(BareMemory(END_ID, 0));
    assert FirstWhole(options, device, endpoint, 1).Some?;
    FirstHeaderDecides(options, device, endpoint, 0);
  }
}
