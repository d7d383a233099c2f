/**
 * The Modbus session as a transition system: what requests are outstanding, how far the link is,
 * and what has been resolved and sent. Request `k` is the `k`-th request that arrived.
 */
module SessionSpec {
  import opened Bytes
  import opened Framing

  datatype Request = Request(id: nat, unit: byte, address: u16, count: Count)

  datatype Outcome = Success(registers: seq<u16>) | Failed

  datatype Resolution = Resolution(id: nat, outcome: Outcome)

  /** Bytes handed to the transport, and the request they were made for. */
  datatype Transmission = Transmission(request: Request, frame: seq<byte>)

  /** `Connecting(timed)`: an attempt is under way, with or without its timeout armed. */
  datatype Link = Down | Connecting(timed: bool) | Up | Closed

  /**
   * What the transport and the callbacks do to request `k`: whether the link is up when it is
   * started and when it is sent, whether the socket can be created and the bytes written, and
   * whether its failure callback closes the session.
   */
  datatype Fate = Fate(upAtStart: bool, socketOpens: bool, upAtSend: bool, sendSucceeds: bool,
                       failureCloses: bool)

  type World = nat -> Fate

  /** The first of the outstanding requests is the active one. */
  datatype Session = Session(
    link: Link,
    outstanding: seq<Request>,
    buffer: seq<byte>,
    arrivals: nat,
    log: seq<Resolution>,
    sent: seq<Transmission>)

  const Initial := Session(Down, [], [], 0, [], [])

  datatype Event =
    | Enqueue(unit: byte, address: u16, count: Count)
    | Connected
    | Disconnected
    | Data(bytes: seq<byte>)
    | Timeout
    | Close

  /** The `k`-th started request carries this id: 1, 2, ..., 65535, 1, ... */
  function TransactionFor(k: nat): (transaction: u16)
    ensures transaction != 0
  {
    1 + k % 65535
  }

  function RequestBytes(request: Request): seq<byte> {
    RequestFrame(TransactionFor(request.id), request.unit, request.address, request.count)
  }

  function AnswerTo(frame: seq<byte>, request: Request): Outcome {
    match Answer(frame, TransactionFor(request.id), request.unit, request.count)
    case Some(registers) => Success(registers)
    case None => Failed
  }

  function Failures(requests: seq<Request>): (log: seq<Resolution>)
    ensures |log| == |requests|
  {
    seq(|requests|, i requires 0 <= i < |requests| => Resolution(requests[i].id, Failed))
  }

  /** A timer is pending: for the connection attempt or for the active request's reply. */
  predicate Armed(s: Session) {
    s.link == Connecting(true) || (s.link.Up? && s.outstanding != [])
  }

  function FailAll(s: Session): Session {
    s.(link := Closed, outstanding := [], buffer := [], log := s.log + Failures(s.outstanding))
  }

  function Transmit(s: Session, world: World): Session
    requires s.outstanding != []
  {
    var request := s.outstanding[0];
    if world(request.id).upAtSend && world(request.id).sendSucceeds
    then s.(link := Up, sent := s.sent + [Transmission(request, RequestBytes(request))])
    else FailAll(s)
  }

  /** Starts the first outstanding request, if there is one. */
  function Begin(s: Session, world: World): Session {
    if s.link.Closed? || s.link.Connecting? || s.outstanding == [] then
      s
    else if s.link.Up? && world(s.outstanding[0].id).upAtStart then
      Transmit(s, world)
    else if world(s.outstanding[0].id).socketOpens then
      s.(link := Connecting(true))
    else
      FailAll(s)
  }

  /** The active request leaves with `outcome`; its timeout goes with it. */
  function Resolve(s: Session, outcome: Outcome, world: World): Session
    requires s.outstanding != []
  {
    var request := s.outstanding[0];
    var left := s.(
      link := if s.link.Connecting? then Connecting(false) else s.link,
      outstanding := s.outstanding[1..],
      log := s.log + [Resolution(request.id, outcome)]);
    if outcome.Failed? && world(request.id).failureCloses then FailAll(left) else Begin(left, world)
  }

  function Take(s: Session, item: Item, world: World): Session {
    if s.outstanding == [] then
      s
    else if item.BadLength? then
      Resolve(s, Failed, world)
    else
      Resolve(s, AnswerTo(item.bytes, s.outstanding[0]), world)
  }

  function TakeAll(s: Session, items: seq<Item>, world: World): Session
    decreases |items|
  {
    if s.link.Closed? || items == [] then s else TakeAll(Take(s, items[0], world), items[1..], world)
  }

  /** All complete frames of the buffer are taken in order, until one of them closes the session. */
  function Receive(s: Session, bytes: seq<byte>, world: World): Session {
    if s.link.Closed? then
      s
    else
      var cut := Deframe(s.buffer + bytes);
      TakeAll(s.(buffer := cut.rest), cut.items, world)
  }

  function Step(s: Session, event: Event, world: World): Session {
    match event
    case Enqueue(unit, address, count) =>
      var request := Request(s.arrivals, unit, address, count);
      if s.link.Closed? then
        s.(arrivals := s.arrivals + 1, log := s.log + [Resolution(request.id, Failed)])
      else
        var accepted := s.(arrivals := s.arrivals + 1, outstanding := s.outstanding + [request]);
        if s.outstanding == [] then Begin(accepted, world) else accepted
    case Connected =>
      if !s.link.Connecting? then s
      else if s.outstanding == [] then s.(link := Up)
      else Transmit(s.(link := Up), world)
    case Disconnected =>
      if s.link.Closed? || s.link.Down? then s else FailAll(s)
    case Data(bytes) =>
      Receive(s, bytes, world)
    case Timeout =>
      if Armed(s) then FailAll(s) else s
    case Close =>
      if s.link.Closed? then s else FailAll(s)
  }

  function Run(s: Session, events: seq<Event>, world: World): Session
    decreases |events|
  {
    if events == [] then s else Run(Step(s, events[0], world), events[1..], world)
  }
}
