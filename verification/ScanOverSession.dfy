/**
 * The scan on top of the session: every read of the scan goes out as a request of a Modbus
 * session, a server answers its bytes, the answer comes back cut into arbitrary chunks, and what
 * the session resolves is the scan's next event.
 */
module ScanOverSession {
  import opened Bytes
  import opened Framing
  import opened ScanSpec
  import opened ScanProperties
  import opened ScanTheorems
  import opened ScanDevice
  import S = SessionSpec
  import P = SessionProperties

  // The server

  const GATEWAY_TARGET_FAILED: byte := 0x0b

  /** A server for function 03: the registers asked for, or an exception for a unit not there. */
  function Serve(device: Device, request: seq<byte>): seq<byte> {
    if |request| != 12 || request[7] != 3 || !(1 <= ReadU16(request[10], request[11]) <= 125) then
      []
    else
      var transaction, unit := ReadU16(request[0], request[1]), request[6];
      match device(unit)
      case Some(memory) =>
        ReplyFrame(transaction, unit, Slice(memory, ReadU16(request[8], request[9]), ReadU16(request[10], request[11])))
      case None =>
        ExceptionFrame(transaction, unit, GATEWAY_TARGET_FAILED)
  }

  /** How the transport cuts the bytes of the `k`-th answer into chunks. */
  type Chop = (nat, seq<byte>) -> seq<seq<byte>>

  ghost predicate KeepsBytes(chop: Chop) {
    forall k, bytes :: Concat(chop(k, bytes)) == bytes
  }

  /** Every send succeeds, the link stays up, and no callback closes the session. */
  ghost predicate Undisturbed(world: S.World) {
    forall k :: world(k) == S.Fate(true, true, true, true, false)
  }

  lemma ServeDecodesRequest(device: Device, request: S.Request)
    ensures var reply := Serve(device, S.RequestBytes(request));
            reply == match device(request.unit)
                     case Some(memory) =>
                       ReplyFrame(S.TransactionFor(request.id), request.unit, Slice(memory, request.address, request.count))
                     case None =>
                       ExceptionFrame(S.TransactionFor(request.id), request.unit, GATEWAY_TARGET_FAILED)
  {
    PackIsInjective(High(request.address), Low(request.address), request.address);
    PackIsInjective(High(S.TransactionFor(request.id)), Low(S.TransactionFor(request.id)), S.TransactionFor(request.id));
  }

  function OutcomeOf(answer: Option<seq<u16>>): S.Outcome {
    match answer
    case Some(registers) => S.Success(registers)
    case None => S.Failed
  }

  /** The session takes the server's bytes for what the device holds. */
  lemma ServerIsUnderstood(device: Device, request: S.Request)
    ensures var reply := Serve(device, S.RequestBytes(request));
            && Delimited(reply)
            && S.AnswerTo(reply, request) == OutcomeOf(AnswerRead(device, Read(request.unit, request.address, request.count)))
  {
    hide Serve, ReplyFrame, ExceptionFrame, Slice, S.TransactionFor;
    ServeDecodesRequest(device, request);
    var transaction := S.TransactionFor(request.id);
    match device(request.unit)
    case Some(memory) =>
      var registers := Slice(memory, request.address, request.count);
      ReplyIsDelimited(transaction, request.unit, registers);
      AnswerIsExact(ReplyFrame(transaction, request.unit, registers), transaction, request.unit, request.count, registers);
    case None =>
      ExceptionAnswersNothing(transaction, request.unit, GATEWAY_TARGET_FAILED, request.count);
  }

  lemma OneFrame(frame: seq<byte>)
    requires Delimited(frame)
    ensures Deframe(frame) == Cut([Frame(frame)], []) && !DropsBytes(frame)
  {
    assert frame[|frame|..] == [] && frame[..|frame|] == frame;
    assert Deframe([]) == Cut([], []);
  }

  // One read

  /** Nothing is outstanding, and the link is up or may be brought up. */
  ghost predicate Idle(session: S.Session) {
    && P.Invariant(session)
    && (session.link.Up? || session.link.Down?)
    && session.outstanding == [] && session.buffer == []
  }

  predicate Sendable(read: Read) {
    read.address < 0x1_0000 && 1 <= read.count <= 125
  }

  /** The request goes out, over a connection made for it if there is none. */
  function Ask(session: S.Session, read: Read, world: S.World): S.Session
    requires Sendable(read)
  {
    var accepted := S.Step(session, S.Enqueue(read.unit, read.address, read.count), world);
    if session.link.Down? then S.Step(accepted, S.Connected, world) else accepted
  }

  /** The server answers the bytes sent last, and its answer arrives in chunks. */
  function Hear(session: S.Session, device: Device, chop: Chop, world: S.World): S.Session {
    if session.sent == [] then session
    else
      var reply := Serve(device, session.sent[|session.sent| - 1].frame);
      S.Run(session, P.DataEvents(chop(session.arrivals, reply)), world)
  }

  function Exchange(session: S.Session, read: Read, device: Device, chop: Chop, world: S.World): S.Session
    requires Sendable(read)
  {
    Hear(Ask(session, read, world), device, chop, world)
  }

  lemma AskSends(session: S.Session, read: Read, world: S.World)
    requires Idle(session) && Undisturbed(world) && Sendable(read)
    ensures var request := S.Request(session.arrivals, read.unit, read.address, read.count);
            Ask(session, read, world) == session.(
              link := S.Up,
              outstanding := [request],
              arrivals := session.arrivals + 1,
              sent := session.sent + [S.Transmission(request, S.RequestBytes(request))])
    ensures P.Invariant(Ask(session, read, world))
  {
    hide S.Receive, S.RequestBytes;
    var enqueue := S.Enqueue(read.unit, read.address, read.count);
    P.StepKeepsInvariant(session, enqueue, world);
    P.StepKeepsInvariant(S.Step(session, enqueue, world), S.Connected, world);
    assert session.outstanding + [S.Request(session.arrivals, read.unit, read.address, read.count)]
        == [S.Request(session.arrivals, read.unit, read.address, read.count)];
  }

  /** Whatever the chunks, the one outstanding request is resolved with the frame's answer. */
  lemma FrameResolves(session: S.Session, frame: seq<byte>, chunks: seq<seq<byte>>, world: S.World)
    requires P.Invariant(session) && session.link.Up? && |session.outstanding| == 1 && session.buffer == []
    requires Undisturbed(world) && Delimited(frame) && Concat(chunks) == frame
    ensures var request := session.outstanding[0];
            S.Run(session, P.DataEvents(chunks), world) == session.(
              outstanding := [],
              log := session.log + [S.Resolution(request.id, S.AnswerTo(frame, request))])
  {
    hide Deframe, DropsBytes, Delimited, S.AnswerTo, S.Transmit;
    OneFrame(frame);
    assert session.buffer + frame == frame;
    P.ChunksDoNotMatter(session, chunks, world);
    P.ReceiveWholeFrames(session, frame, [Frame(frame)], world);
    P.TakeOne(session, Frame(frame), world);
  }

  /** One read over an idle session: one request out, one resolution in, with the device's answer. */
  lemma ExchangeAnswers(session: S.Session, read: Read, device: Device, chop: Chop, world: S.World)
    requires Idle(session) && Undisturbed(world) && KeepsBytes(chop) && Sendable(read)
    ensures var request := S.Request(session.arrivals, read.unit, read.address, read.count);
            var after := Exchange(session, read, device, chop, world);
            && Idle(after) && after.link.Up?
            && after.log == session.log + [S.Resolution(request.id, OutcomeOf(AnswerRead(device, read)))]
            && after.sent == session.sent + [S.Transmission(request, S.RequestBytes(request))]
            && after.arrivals == session.arrivals + 1
  {
    hide Serve, Ask, S.RequestBytes, S.Step, S.AnswerTo, Deframe, Delimited;
    var request := S.Request(session.arrivals, read.unit, read.address, read.count);
    AskSends(session, read, world);
    var asked := Ask(session, read, world);
    ServerIsUnderstood(device, request);
    var reply := Serve(device, S.RequestBytes(request));
    assert asked.sent[|asked.sent| - 1].frame == S.RequestBytes(request);
    var chunks := chop(asked.arrivals, reply);
    assert Concat(chunks) == reply;
    FrameResolves(asked, reply, chunks, world);
    P.RunKeepsInvariant(asked, P.DataEvents(chunks), world);
  }

  // The whole scan

  function EventFor(resolution: S.Resolution): Event {
    match resolution.outcome
    case Success(registers) => Reply(registers, Healthy)
    case Failed => Failure(Healthy)
  }

  datatype Stack = Stack(scan: Scan, session: S.Session)

  /** The scan run to its end, each read by way of the session. */
  ghost function DriveOver(options: Options, stack: Stack, device: Device, chop: Chop, world: S.World): Stack
    requires ValidOptions(options) && Reached(options, stack.scan)
    decreases RepliesLeft(stack.scan)
  {
    if !Waits(stack.scan) then
      stack
    else
      ReachedKeeps(options, stack.scan);
      PendingIsSendable(options, stack.scan);
      var session := Exchange(stack.session, PendingRead(options, stack.scan), device, chop, world);
      if |session.log| <= |stack.session.log| then
        stack
      else
        var event := EventFor(session.log[|session.log| - 1]);
        ReplyMakesProgress(options, stack.scan, event);
        ReachedStep(options, stack.scan, event);
        DriveOver(options, Stack(Step(options, stack.scan, event), session), device, chop, world)
  }

  /** Everything a scan asks for fits a function 03 request. */
  lemma PendingIsSendable(options: Options, s: Scan)
    requires ValidOptions(options) && Reached(options, s) && Waits(s)
    ensures Sendable(PendingRead(options, s))
  {
    hide Run, Tiled, InOrder, TraceFits, UnitIds;
    ReachedKeeps(options, s);
  }

  // The requests on the wire

  /** All reads of a scan so far, in the order it issued them. */
  function Reads(s: Scan): seq<Read> {
    seq(|s.probes|, i requires 0 <= i < |s.probes| => Read(s.probes[i].unit, BASE, 4)) + s.chunks
  }

  /** From one state to the next the scan issues the one read it then waits for, or none at its end. */
  ghost predicate AsksOnce(options: Options, s: Scan, s': Scan) {
    if Waits(s') then Reads(s') == Reads(s) + [PendingRead(options, s')] else Reads(s') == Reads(s)
  }

  lemma ProbeAsksOnce(options: Options, s: Scan, index: nat, retry: bool)
    requires s.chunks == [] && s.phase.Probing?
    ensures AsksOnce(options, s, ProbeUnit(options, s, index, retry))
  {
  }

  lemma FetchAsksOnce(options: Options, s: Scan, goal: Goal, reader: Reader)
    requires reader.remaining > 0
    ensures AsksOnce(options, s, NextChunk(s, goal, reader))
  {
  }

  lemma ReadHeaderAsksOnce(options: Options, s: Scan)
    ensures AsksOnce(options, s, ReadHeader(options, s))
  {
  }

  lemma OnHeaderAsksOnce(options: Options, s: Scan, header: seq<u16>)
    requires s.phase.Walking?
    ensures AsksOnce(options, s, OnHeader(options, s, header))
  {
    hide NextChunk, InSpan, End, Instances, ReadHeader, ThingOf;
    if |header| == 2 {
      ReadHeaderAsksOnce(options, s.(models := s.models + [Model(header[0], [])]));
      if header[1] > 0 {
        var at := End(s.common, s.models) + 2;
        FetchAsksOnce(options, s, ModelPayload(header[0], header[1]), Reader(at, header[1], []));
      }
    }
  }

  lemma OnChunkAsksOnce(options: Options, s: Scan, registers: seq<u16>)
    requires s.phase.Walking? && s.phase.reader.remaining > 0
    ensures AsksOnce(options, s, OnChunk(options, s, registers))
  {
    hide NextChunk, ReadHeader, OnHeader;
    if |registers| == ChunkSize(s.phase.reader) {
      var reader := s.phase.reader;
      var s' := s.(received := s.received + registers);
      OnChunkCases(options, s, registers);
      if reader.remaining > CHUNK {
        FetchAsksOnce(options, s', s.phase.goal,
          Reader(reader.next + CHUNK, reader.remaining - CHUNK, reader.registers + registers));
      } else {
        DeliverAsksOnce(options, s', s.phase.goal, reader.registers + registers);
      }
    }
  }

  lemma DeliverAsksOnce(options: Options, s: Scan, goal: Goal, registers: seq<u16>)
    requires s.phase.Walking?
    ensures AsksOnce(options, s, Deliver(options, s, goal, registers))
  {
    hide NextChunk, ReadHeader, OnHeader;
    match goal
    case CommonModel(_) =>
      ReadHeaderAsksOnce(options, s.(common := registers));
    case ModelHeader =>
      OnHeaderAsksOnce(options, s, registers);
    case ModelPayload(id, _) =>
      ReadHeaderAsksOnce(options, s.(models := s.models + [Model(id, registers)]));
  }

  lemma StepAsksOnce(options: Options, s: Scan, event: Event)
    requires ValidOptions(options) && Reached(options, s) && Waits(s)
    requires event.Reply? || event.Failure?
    ensures AsksOnce(options, s, Step(options, s, event))
  {
    hide NextChunk, OnChunk, InSpan, Run, ProbeUnit, UnitIds, InOrder, Tiled, TraceFits;
    ReachedKeeps(options, s);
    if s.phase.Probing? {
      var s' := Replaced(s, event.env);
      assert Reads(s') == Reads(s);
      ProbeAsksOnce(options, s', s.phase.index, false);
      ProbeAsksOnce(options, s', s.phase.index + 1, false);
      ProbeAsksOnce(options, s', s.phase.index + 1, true);
      if event.Reply? && |event.registers| == 4 && event.registers[3] > 0 {
        var length := event.registers[3];
        var t := s.(selected := Some(UnitAt(options, s.phase.index)));
        assert Reads(t) == Reads(s);
        FetchAsksOnce(options, t, CommonModel(length), Reader(COMMON, length, []));
      }
    } else if event.Reply? {
      OnChunkAsksOnce(options, s, event.registers);
    }
  }

  /** A scan that waits has issued the read it waits for last. */
  lemma {:induction false} PendingIsLast(options: Options, events: seq<Event>)
    requires ValidOptions(options) && Waits(Run(options, Initial, events))
    ensures var s := Run(options, Initial, events); Reads(s) != [] && Reads(s)[|Reads(s)| - 1] == PendingRead(options, s)
    decreases |events|
  {
    hide Reads, PendingRead, Invariant, ProbeUnit, OnChunk, InSpan, UnitIds;
    var before := events[..|events| - 1];
    var s, event := Run(options, Initial, before), events[|before|];
    assert events == before + [event];
    RunAppend(options, Initial, before, event);
    if !Waits(s) {
      Reachable(options, before);
      FirstReadIsPending(options, s, event);
    } else {
      PendingIsLast(options, before);
      if event.Reply? || event.Failure? {
        assert Reached(options, s);
        StepAsksOnce(options, s, event);
      }
    }
  }

  lemma FirstReadIsPending(options: Options, s: Scan, event: Event)
    requires Invariant(options, s) && !Waits(s) && Waits(Step(options, s, event))
    ensures var after := Step(options, s, event); Reads(after) == [PendingRead(options, after)]
  {
  }

  /** The registers a logical read is for. */
  function Wanted(goal: Goal): nat {
    match goal
    case CommonModel(length) => length
    case ModelHeader => 2
    case ModelPayload(_, length) => length
  }

  /**
   * The chunk a walk waits for starts behind all that has been received and asks for 125 registers,
   * or for all that its logical read still misses when that is fewer.
   */
  lemma ChunksAreFull(options: Options, events: seq<Event>)
    requires ValidOptions(options) && Run(options, Initial, events).phase.Walking?
    ensures var s := Run(options, Initial, events);
            var missing := Wanted(s.phase.goal) - |s.phase.reader.registers|;
            && s.chunks != []
            && s.chunks[|s.chunks| - 1].address == 40004 + |s.received|
            && 0 < missing && s.chunks[|s.chunks| - 1].count == (if missing < 125 then missing else 125)
  {
    var s := Run(options, Initial, events);
    Reachable(options, events);
    PendingIsLast(options, events);
    assert s.chunks != [] ==> Reads(s)[|Reads(s)| - 1] == s.chunks[|s.chunks| - 1];
  }

  /** The bytes on the wire are the requests for these reads, numbered as they were made. */
  ghost predicate Wired(session: S.Session, asked: seq<Read>) {
    && session.arrivals == |asked| == |session.sent|
    && forall i :: 0 <= i < |asked| ==>
         Sendable(asked[i]) && session.sent[i].frame == S.RequestBytes(S.Request(i, asked[i].unit, asked[i].address, asked[i].count))
  }

  /** Everything but the read the scan waits for has been on the wire. */
  ghost predicate InStep(options: Options, stack: Stack) {
    if Waits(stack.scan)
    then exists asked :: Reads(stack.scan) == asked + [PendingRead(options, stack.scan)] && Wired(stack.session, asked)
    else Wired(stack.session, Reads(stack.scan))
  }

  /** One read by way of the session is one step of the scan against the device. */
  lemma RoundTrip(options: Options, stack: Stack, device: Device, chop: Chop, world: S.World) returns (next: Stack)
    requires ValidOptions(options) && Reached(options, stack.scan) && Waits(stack.scan)
    requires Idle(stack.session) && Undisturbed(world) && KeepsBytes(chop) && InStep(options, stack)
    ensures Sendable(PendingRead(options, stack.scan))
    ensures next == Stack(Step(options, stack.scan, NextEvent(options, stack.scan, device)),
                          Exchange(stack.session, PendingRead(options, stack.scan), device, chop, world))
    ensures Reached(options, next.scan) && Idle(next.session) && InStep(options, next)
    ensures |next.session.log| == |stack.session.log| + 1
    ensures EventFor(next.session.log[|stack.session.log|]) == NextEvent(options, stack.scan, device)
  {
    hide Idle, Step, Run, Exchange, Invariant, Reads, S.RequestBytes, AnswerRead;
    var read := PendingRead(options, stack.scan);
    var event := NextEvent(options, stack.scan, device);
    PendingIsSendable(options, stack.scan);
    ExchangeAnswers(stack.session, read, device, chop, world);
    var session := Exchange(stack.session, read, device, chop, world);
    next := Stack(Step(options, stack.scan, event), session);
    ReachedStep(options, stack.scan, event);
    StepAsksOnce(options, stack.scan, event);
    assert Wired(session, Reads(stack.scan));
  }

  lemma {:induction false} OverSession(options: Options, stack: Stack, device: Device, chop: Chop, world: S.World)
    requires ValidOptions(options) && Reached(options, stack.scan)
    requires Idle(stack.session) && Undisturbed(world) && KeepsBytes(chop) && InStep(options, stack)
    ensures var after := DriveOver(options, stack, device, chop, world);
            && after.scan == Drive(options, stack.scan, device)
            && Idle(after.session)
            && Wired(after.session, Reads(after.scan))
    decreases RepliesLeft(stack.scan)
  {
    hide Idle, Step, Run, Exchange, Invariant, Reads, Wired, S.RequestBytes, AnswerRead, Reached, NextEvent;
    if Waits(stack.scan) {
      var next := RoundTrip(options, stack, device, chop, world);
      ReachedKeeps(options, stack.scan);
      ReplyMakesProgress(options, stack.scan, NextEvent(options, stack.scan, device));
      OverSession(options, next, device, chop, world);
    }
  }

  /**
   * End to end: over a fresh session whose link holds, whatever chunks the server's answers arrive
   * in, the scan emits what the device's registers say, and the requests on the wire are exactly
   * the scan's reads in the order it issued them.
   */
  lemma ScanOverTheWire(options: Options, device: Device, endpoint: ModbusEndpoint, chop: Chop, world: S.World)
    requires ValidOptions(options) && Undisturbed(world) && KeepsBytes(chop)
    ensures Reached(options, Step(options, Initial, Start(Some(endpoint), Healthy)))
    ensures var after := DriveOver(options, Stack(Step(options, Initial, Start(Some(endpoint), Healthy)), S.Initial), device, chop, world);
            && after.scan.trace == Outcome(FirstThing(options, device, endpoint, 0))
            && after.session.outstanding == []
            && Wired(after.session, Reads(after.scan))
  {
    var start := Start(Some(endpoint), Healthy);
    ReachedInitially(options);
    ReachedStep(options, Initial, start);
    var stack := Stack(Step(options, Initial, start), S.Initial);
    assert Idle(S.Initial);
    ProbingOrderIsPermutation();
    assert Reads(stack.scan) == [] + [PendingRead(options, stack.scan)];
    assert Wired(S.Initial, []);
    OverSession(options, stack, device, chop, world);
    ScanReadsTheDevice(options, device, endpoint);
  }
}
