/**
 * The scan on top of sessions to which anything may happen: bytes, breaks, timeouts, closings and
 * other requests, in any order. Whatever it emits rests on exact replies to its own requests.
 */
module ScanOverAnyWire {
  import opened Bytes
  import opened Framing
  import opened ScanSpec
  import opened ScanProperties
  import opened ScanTheorems
  import opened ScanDevice
  import opened ScanOverSession
  import E = SessionEvidence
  import P = SessionProperties
  import S = SessionSpec

  /** What a request of the walk was answered. */
  datatype Reply = Reply(request: S.Request, registers: seq<u16>)

  /**
   * `requests` are all requests of the session in use, and `heard` all frames it has received;
   * `pending` is the number of the request the scan waits for, once it has been handed in. A new
   * session lives in a world of its own.
   */
  datatype Line = Line(
    scan: Scan,
    session: S.Session,
    generation: nat,
    requests: seq<S.Request>,
    heard: set<seq<byte>>,
    pending: Option<nat>,
    replies: seq<Reply>)

  const Fresh := Line(Initial, S.Initial, 0, [], {}, None, [])

  type Worlds = nat -> S.World

  datatype Move =
    | Begin(session: Option<ModbusEndpoint>, replacement: Option<ModbusEndpoint>)
    | Submit
    | Wire(event: S.Event)
    | Deliver(replacement: Option<ModbusEndpoint>)
    | CancelScan

  function EnvOf(line: Line, replacement: Option<ModbusEndpoint>): Env {
    Env(line.session.link.Closed?, replacement)
  }

  /** The scan takes a step; it goes on over a new session when it probes on from a closed one. */
  function Moved(options: Options, line: Line, event: Event, env: Env): Line {
    var scan := ScanSpec.Step(options, line.scan, event);
    if env.sessionClosed && env.replacement.Some? && scan.phase.Probing?
    then line.(scan := scan, session := S.Initial, generation := line.generation + 1,
               requests := [], heard := {}, pending := None)
    else line.(scan := scan, pending := None)
  }

  function Deserved(line: Line, id: nat): seq<Reply> {
    if line.scan.phase.Walking? && id < |line.requests| && id < |line.session.log|
       && line.session.log[id].outcome.Success?
    then [Reply.Reply(line.requests[id], line.session.log[id].outcome.registers)]
    else []
  }

  function EventFrom(resolution: S.Resolution, env: Env): Event {
    match resolution.outcome
    case Success(registers) => ScanSpec.Reply(registers, env)
    case Failed => Failure(env)
  }

  function Next(options: Options, line: Line, move: Move, worlds: Worlds): Line {
    match move
    case Begin(session, replacement) =>
      if line.scan.phase.Unstarted?
      then Moved(options, line, Start(session, EnvOf(line, replacement)), EnvOf(line, replacement))
      else line
    case Submit =>
      if Waits(line.scan) && line.pending.None? && Sendable(PendingRead(options, line.scan)) then
        var read := PendingRead(options, line.scan);
        Happened(line, S.Enqueue(read.unit, read.address, read.count), worlds).(pending := Some(line.session.arrivals))
      else
        line
    case Wire(event) =>
      Happened(line, event, worlds)
    case Deliver(replacement) =>
      if Waits(line.scan) && line.pending.Some? && line.pending.value < |line.session.log| then
        var env := EnvOf(line, replacement);
        var id := line.pending.value;
        Moved(options, line, EventFrom(line.session.log[id], env), env).(replies := line.replies + Deserved(line, id))
      else
        line
    case CancelScan =>
      line.(scan := ScanSpec.Step(options, line.scan, Cancel))
  }

  function Happened(line: Line, event: S.Event, worlds: Worlds): Line {
    line.(
      session := S.Step(line.session, event, worlds(line.generation)),
      requests := E.RequestsAfter(line.session, line.requests, event),
      heard := line.heard + E.FramesOf(line.session, event))
  }

  function Run(options: Options, line: Line, moves: seq<Move>, worlds: Worlds): Line
    decreases |moves|
  {
    if moves == [] then line else Run(options, Next(options, line, moves[0], worlds), moves[1..], worlds)
  }

  // What every run keeps

  function AllRegisters(replies: seq<Reply>): seq<u16> {
    if replies == [] then [] else AllRegisters(replies[..|replies| - 1]) + replies[|replies| - 1].registers
  }

  predicate Asks(request: S.Request, read: Read) {
    request.unit == read.unit && request.address == read.address && request.count == read.count
  }

  /** The reply came, as the exact function 03 reply to the request, which asked for this read. */
  ghost predicate Rests(reply: Reply, read: Read, heard: set<seq<byte>>) {
    && Asks(reply.request, read)
    && |reply.registers| == read.count <= 125 && read.count >= 1
    && ReplyFrame(S.TransactionFor(reply.request.id), read.unit, reply.registers) in heard
  }

  ghost predicate SessionFits(line: Line) {
    && P.Invariant(line.session)
    && line.session.arrivals == |line.requests|
    && E.Evident(line.session, line.requests, line.heard)
  }

  ghost predicate PendingFits(options: Options, line: Line) {
    line.pending.Some? ==>
      && line.pending.value < |line.requests|
      && (Waits(line.scan) ==> Asks(line.requests[line.pending.value], PendingRead(options, line.scan)))
  }

  ghost predicate RepliesFit(options: Options, scan: Scan, replies: seq<Reply>, heard: set<seq<byte>>) {
    && scan.received == AllRegisters(replies)
    && |replies| <= |scan.chunks|
    && (forall i :: 0 <= i < |replies| ==> Rests(replies[i], scan.chunks[i], heard))
    && (scan.phase.Unstarted? || scan.phase.Probing? ==> replies == [])
    && (scan.phase.Walking? ==>
          |replies| + 1 == |scan.chunks| && scan.chunks[|replies|] == PendingRead(options, scan))
  }

  ghost predicate LineInvariant(options: Options, line: Line) {
    && Reached(options, line.scan)
    && SessionFits(line)
    && PendingFits(options, line)
    && RepliesFit(options, line.scan, line.replies, line.heard)
  }

  /** The `k`-th resolution is that of request `k`. */
  lemma LogIsNumbered(session: S.Session, k: nat)
    requires P.Invariant(session) && k < |session.log|
    ensures session.log[k].id == k
  {
    assert P.ResolvedIds(session.log)[k] == (P.ResolvedIds(session.log) + P.RequestIds(session.outstanding))[k];
  }

  lemma MoreHeard(options: Options, scan: Scan, replies: seq<Reply>, heard: set<seq<byte>>, more: set<seq<byte>>)
    requires RepliesFit(options, scan, replies, heard)
    ensures RepliesFit(options, scan, replies, heard + more)
  {
    hide ReplyFrame, AllRegisters, PendingRead;
    forall i | 0 <= i < |replies|
      ensures Rests(replies[i], scan.chunks[i], heard + more)
    {
      assert Rests(replies[i], scan.chunks[i], heard);
    }
  }

  lemma HappenedKeeps(options: Options, line: Line, event: S.Event, worlds: Worlds)
    requires LineInvariant(options, line)
    ensures LineInvariant(options, Happened(line, event, worlds))
  {
    hide S.Step, P.Invariant, E.Evident, RepliesFit, Reached, PendingRead, E.FramesOf;
    P.StepKeepsInvariant(line.session, event, worlds(line.generation));
    E.StepIsEvident(line.session, event, line.requests, line.heard, worlds(line.generation));
    MoreHeard(options, line.scan, line.replies, line.heard, E.FramesOf(line.session, event));
  }

  lemma SubmitKeeps(options: Options, line: Line, worlds: Worlds)
    requires LineInvariant(options, line)
    ensures LineInvariant(options, Next(options, line, Submit, worlds))
  {
    hide S.Step, P.Invariant, E.Evident, RepliesFit, Reached;
    if Waits(line.scan) && line.pending.None? && Sendable(PendingRead(options, line.scan)) {
      var read := PendingRead(options, line.scan);
      HappenedKeeps(options, line, S.Enqueue(read.unit, read.address, read.count), worlds);
    }
  }

  /** One step of a scan that walks, on the registers it has asked for. */
  lemma WalkOnReply(options: Options, s: Scan, registers: seq<u16>, env: Env)
    requires ValidOptions(options) && Reached(options, s) && s.phase.Walking? && |registers| == ChunkSize(s.phase.reader)
    ensures var after := ScanSpec.Step(options, s, ScanSpec.Reply(registers, env));
            && after.received == s.received + registers
            && (after.phase.Walking? || after.phase.Finished?)
            && after.chunks == s.chunks + if after.phase.Walking? then [PendingRead(options, after)] else []
  {
    hide ScanSpec.Deliver, Invariant, ScanSpec.Run, PendingRead;
    ReachedKeeps(options, s);
    WalkingReads(options, s);
    var event := ScanSpec.Reply(registers, env);
    var after := ScanSpec.Step(options, s, event);
    StepAsksOnce(options, s, event);
    OnChunkCases(options, s, registers);
    DeliverKeepsReceived(options, s.(received := s.received + registers), s.phase.goal, s.phase.reader.registers + registers);
    SameProbesSameReads(options, s, after);
  }

  lemma WalkingReads(options: Options, s: Scan)
    requires Invariant(options, s) && s.phase.Walking?
    ensures s.phase.reader.remaining > 0
  {
  }

  /** With the same probes, what has been asked since is what the walk has asked. */
  lemma SameProbesSameReads(options: Options, s: Scan, after: Scan)
    requires AsksOnce(options, s, after) && after.probes == s.probes
    ensures after.chunks == s.chunks + if Waits(after) then [PendingRead(options, after)] else []
  {
    hide PendingRead;
    var front := Reads(s)[..|s.probes|];
    assert Reads(s)[|s.probes|..] == s.chunks && Reads(after)[|s.probes|..] == after.chunks;
  }

  lemma AllRegistersAppend(replies: seq<Reply>, reply: Reply)
    ensures AllRegisters(replies + [reply]) == AllRegisters(replies) + reply.registers
  {
    assert (replies + [reply])[..|replies|] == replies;
  }

  /** A read of the walk that is answered adds its registers, and no more. */
  lemma AnsweredWalkFits(options: Options, line: Line, id: nat, env: Env)
    requires ValidOptions(options) && LineInvariant(options, line) && line.scan.phase.Walking?
    requires line.pending == Some(id) && id < |line.session.log| && line.session.log[id].outcome.Success?
    ensures var after := ScanSpec.Step(options, line.scan, EventFrom(line.session.log[id], env));
            && RepliesFit(options, after, line.replies + Deserved(line, id), line.heard)
            && !after.phase.Probing?
  {
    hide ReplyFrame, AllRegisters, P.Invariant, ScanSpec.Step, Reached;
    var s := line.scan;
    var resolution := line.session.log[id];
    LogIsNumbered(line.session, id);
    assert E.Answered(resolution, line.requests, line.heard);
    var registers := resolution.outcome.registers;
    WalkOnReply(options, s, registers, env);
    var reply := Reply.Reply(line.requests[id], registers);
    AllRegistersAppend(line.replies, reply);
    assert Rests(reply, s.chunks[|line.replies|], line.heard);
    var after := ScanSpec.Step(options, s, EventFrom(resolution, env));
    forall i | 0 <= i < |line.replies|
      ensures Rests(line.replies[i], after.chunks[i], line.heard)
    {
      assert after.chunks[i] == s.chunks[i];
    }
  }

  /** A step that ends a walk without registers leaves what has been received. */
  lemma FailedWalkFits(options: Options, scan: Scan, replies: seq<Reply>, heard: set<seq<byte>>, env: Env)
    requires RepliesFit(options, scan, replies, heard) && scan.phase.Walking?
    ensures var after := ScanSpec.Step(options, scan, Failure(env));
            RepliesFit(options, after, replies, heard) && after.phase.Finished?
  {
    hide Rests, AllRegisters;
  }

  lemma CancelledFits(options: Options, scan: Scan, replies: seq<Reply>, heard: set<seq<byte>>)
    requires RepliesFit(options, scan, replies, heard)
    ensures RepliesFit(options, ScanSpec.Step(options, scan, Cancel), replies, heard)
    ensures ScanSpec.Step(options, scan, Cancel).phase == scan.phase || ScanSpec.Step(options, scan, Cancel).phase.Finished?
  {
    hide Rests, AllRegisters;
  }

  /** A step of a sweep: it probes on, ends, or starts the walk with its first read. */
  lemma SweptFits(options: Options, scan: Scan, event: Event, heard: set<seq<byte>>)
    requires ValidOptions(options) && Reached(options, scan) && scan.phase.Probing?
    requires event.Reply? || event.Failure?
    requires RepliesFit(options, scan, [], heard)
    ensures RepliesFit(options, ScanSpec.Step(options, scan, event), [], {})
    ensures RepliesFit(options, ScanSpec.Step(options, scan, event), [], heard)
  {
    hide Invariant, ScanSpec.Run, InSpan, UnitIds, IsHeader, Reads, PendingRead;
    ReachedKeeps(options, scan);
    BeforeTheWalk(options, scan);
    StepAsksOnce(options, scan, event);
    var after := ScanSpec.Step(options, scan, event);
    if after.phase.Walking? {
      assert after.probes == scan.probes;
      SameProbesSameReads(options, scan, after);
    }
  }

  lemma BeforeTheWalk(options: Options, s: Scan)
    requires Invariant(options, s) && (s.phase.Unstarted? || s.phase.Probing?)
    ensures s.chunks == [] && s.received == []
  {
  }

  lemma BegunFits(options: Options, scan: Scan, event: Event, heard: set<seq<byte>>)
    requires RepliesFit(options, scan, [], heard) && scan.phase.Unstarted? && event.Start?
    ensures RepliesFit(options, ScanSpec.Step(options, scan, event), [], {})
    ensures RepliesFit(options, ScanSpec.Step(options, scan, event), [], heard)
  {
    hide UnitIds;
  }

  /** A new session starts with nothing asked and nothing heard. */
  lemma FreshSessionFits()
    ensures P.Invariant(S.Initial) && E.Evident(S.Initial, [], {}) && S.Initial.arrivals == 0
  {
  }

  lemma MovedKeeps(options: Options, line: Line, event: Event, env: Env, replies: seq<Reply>)
    requires LineInvariant(options, line)
    requires var after := ScanSpec.Step(options, line.scan, event);
             && RepliesFit(options, after, replies, line.heard)
             && (after.phase.Probing? ==> RepliesFit(options, after, replies, {}))
    ensures LineInvariant(options, Moved(options, line, event, env).(replies := replies))
  {
    hide ScanSpec.Step, RepliesFit, P.Invariant, E.Evident, Reached;
    ReachedStep(options, line.scan, event);
    FreshSessionFits();
  }

  lemma DeliverKeeps(options: Options, line: Line, replacement: Option<ModbusEndpoint>, worlds: Worlds)
    requires ValidOptions(options) && LineInvariant(options, line)
    ensures LineInvariant(options, Next(options, line, Deliver(replacement), worlds))
  {
    hide ScanSpec.Step, P.Invariant, E.Evident, Reached, Moved;
    if Waits(line.scan) && line.pending.Some? && line.pending.value < |line.session.log| {
      var env := EnvOf(line, replacement);
      var id := line.pending.value;
      var event := EventFrom(line.session.log[id], env);
      if line.scan.phase.Probing? {
        SweptFits(options, line.scan, event, line.heard);
        assert Deserved(line, id) == [] && line.replies + [] == line.replies;
      } else if event.Reply? {
        AnsweredWalkFits(options, line, id, env);
      } else {
        FailedWalkFits(options, line.scan, line.replies, line.heard, env);
        assert Deserved(line, id) == [] && line.replies + [] == line.replies;
      }
      MovedKeeps(options, line, event, env, line.replies + Deserved(line, id));
    }
  }

  lemma BeginKeeps(options: Options, line: Line, move: Move, worlds: Worlds)
    requires ValidOptions(options) && LineInvariant(options, line) && move.Begin?
    ensures LineInvariant(options, Next(options, line, move, worlds))
  {
    hide ScanSpec.Step, P.Invariant, E.Evident, Reached;
    if line.scan.phase.Unstarted? {
      var env := EnvOf(line, move.replacement);
      BegunFits(options, line.scan, Start(move.session, env), line.heard);
      MovedKeeps(options, line, Start(move.session, env), env, line.replies);
    }
  }

  lemma NextKeeps(options: Options, line: Line, move: Move, worlds: Worlds)
    requires ValidOptions(options) && LineInvariant(options, line)
    ensures LineInvariant(options, Next(options, line, move, worlds))
  {
    hide ScanSpec.Step, SessionFits, RepliesFit, Reached, Moved, PendingRead, Happened;
    match move
    case Begin(_, _) =>
      BeginKeeps(options, line, move, worlds);
    case Submit =>
      SubmitKeeps(options, line, worlds);
    case Wire(event) =>
      HappenedKeeps(options, line, event, worlds);
    case Deliver(replacement) =>
      DeliverKeeps(options, line, replacement, worlds);
    case CancelScan =>
      CancelledFits(options, line.scan, line.replies, line.heard);
      ReachedStep(options, line.scan, Cancel);
      CancelKeepsPending(options, line);
      assert SessionFits(line.(scan := ScanSpec.Step(options, line.scan, Cancel))) by { SameSession(line, ScanSpec.Step(options, line.scan, Cancel)); }
  }

  lemma SameSession(line: Line, scan: Scan)
    ensures SessionFits(line) <==> SessionFits(line.(scan := scan))
  {
    hide P.Invariant, E.Evident;
  }

  lemma CancelKeepsPending(options: Options, line: Line)
    requires PendingFits(options, line)
    ensures PendingFits(options, line.(scan := ScanSpec.Step(options, line.scan, Cancel)))
  {
  }

  lemma {:induction false} RunKeeps(options: Options, line: Line, moves: seq<Move>, worlds: Worlds)
    requires ValidOptions(options) && LineInvariant(options, line)
    ensures LineInvariant(options, Run(options, line, moves, worlds))
    decreases |moves|
  {
    hide Next, LineInvariant;
    if moves != [] {
      NextKeeps(options, line, moves[0], worlds);
      RunKeeps(options, Next(options, line, moves[0], worlds), moves[1..], worlds);
    }
  }

  lemma FreshFits(options: Options)
    ensures LineInvariant(options, Fresh)
  {
    FreshSessionFits();
    ReachedInitially(options);
  }

  /**
   * Over sessions to which anything may happen, a scan that emits a thing has received the
   * registers the thing rests on, from register 40004 on, read by read: each read of the walk was
   * answered by the exact function 03 reply to the scan's own request for it, received as a frame
   * by the session in use, and the registers of these replies in a row are the common model, the
   * models and the end model.
   */
  lemma EmissionRestsOnReplies(options: Options, moves: seq<Move>, worlds: Worlds, thing: Thing)
    requires ValidOptions(options)
    requires Emission.Next(thing) in Run(options, Fresh, moves, worlds).scan.trace
    ensures var line := Run(options, Fresh, moves, worlds);
            && AllRegisters(line.replies) == line.scan.common + PrintModels(line.scan.models) + EndModel
            && thing == ThingOf(thing.endpoint, thing.unit, line.scan.common, line.scan.models)
            && |line.replies| <= |line.scan.chunks|
            && forall i :: 0 <= i < |line.replies| ==>
                 && line.scan.chunks[i].unit == thing.unit
                 && Rests(line.replies[i], line.scan.chunks[i], line.heard)
  {
    hide Next, Run, ReplyFrame;
    FreshFits(options);
    RunKeeps(options, Fresh, moves, worlds);
    var line := Run(options, Fresh, moves, worlds);
    var events :| line.scan == ScanSpec.Run(options, Initial, events);
    EmissionIsSound(options, events, thing);
    forall i | 0 <= i < |line.replies|
      ensures line.scan.chunks[i].unit == thing.unit
    {
      ChunksTile(options, events, i);
    }
  }
}
