/**
 * The session as the program keeps it: a queue, an optional active request, a receive buffer, a
 * timer, a transaction counter and four flags, each updated in place by the callbacks of the
 * event loop. `Valid` says which combinations of them exist between callbacks, and every method
 * moves the session along the transition system of `SessionSpec`.
 */
module ModbusSessionModel {
  import opened Bytes
  import opened Framing
  import opened SessionSpec
  import opened SessionProperties

  datatype Active = Active(request: Request, transaction: u16)

  datatype Timer = NoTimer | ConnectTimer | ResponseTimer

  /** The 16-bit counter that skips 0 goes through the transaction ids in order. */
  lemma NextTransaction(started: nat)
    ensures var next := (TransactionFor(started) + 1) % 0x1_0000;
            (if next == 0 then 1 else next) == TransactionFor(started + 1)
  {
  }

  lemma FailuresAppend(front: seq<Request>, back: seq<Request>)
    ensures Failures(front + back) == Failures(front) + Failures(back)
    ensures |front| == 1 ==> Failures(front) == [Resolution(front[0].id, Failed)]
    ensures front == [] ==> Failures(front) == []
  {
  }

  class ModbusSession {
    /** The transport and the callers' callbacks, as an oracle by request. */
    const world: World

    var queue: seq<Request>
    var active: Option<Active>
    var receiveBuffer: seq<byte>
    var timer: Timer
    var nextTransaction: u16
    var hasClient: bool
    var connecting: bool
    var connected: bool
    var awaitingResponse: bool
    var closed: bool

    // What the callers and the wire have seen
    var arrivals: nat
    var log: seq<Resolution>
    var sent: seq<Transmission>

    /** Requests are numbered as they arrive; the counter is one ahead of the last one started. */
    ghost predicate Numbered()
      reads `queue, `active, `arrivals, `nextTransaction, `closed
    {
      && |queue| <= arrivals
      && (forall i :: 0 <= i < |queue| ==> queue[i].id == arrivals - |queue| + i)
      && (active.Some? ==>
            && active.value.request.id == arrivals - |queue| - 1
            && active.value.transaction == TransactionFor(active.value.request.id))
      && (!closed ==> nextTransaction == TransactionFor(arrivals - |queue|))
    }

    /** Which flags and timer go with a closed, an idle and a busy session. */
    ghost predicate FlagsFit()
      reads `queue, `active, `timer, `hasClient, `connecting, `connected, `awaitingResponse, `closed
    {
      if closed then
        active.None? && queue == [] && timer.NoTimer? && !connecting && !connected && !awaitingResponse
      else if active.None? then
        timer.NoTimer? && !awaitingResponse && (connected ==> hasClient) && (connecting ==> connected)
      else if connecting then
        hasClient && !awaitingResponse && (timer.ConnectTimer? || (timer.NoTimer? && connected))
      else
        hasClient && connected && awaitingResponse && timer.ResponseTimer?
    }

    /** Between callbacks nothing is queued unless a request is active. */
    ghost predicate Valid()
      reads `queue, `active, `timer, `nextTransaction, `hasClient, `connecting, `connected,
            `awaitingResponse, `closed, `arrivals
    {
      && Numbered()
      && FlagsFit()
      && (active.None? ==> queue == [])
    }

    ghost function AbstractLink(): Link
      reads `timer, `connecting, `connected, `closed
    {
      if closed then Closed
      else if connecting then Connecting(timer.ConnectTimer?)
      else if connected then Up
      else Down
    }

    ghost function Abstract(): Session
      reads this
    {
      Session(
        AbstractLink(),
        (if active.Some? then [active.value.request] else []) + queue,
        if closed then [] else receiveBuffer,
        arrivals, log, sent)
    }

    constructor (world: World)
      ensures Valid() && Abstract() == Initial && this.world == world
    {
      this.world := world;
      queue, active, receiveBuffer, timer := [], None, [], NoTimer;
      nextTransaction := 1;
      hasClient, connecting, connected, awaitingResponse, closed := false, false, false, false, false;
      arrivals, log, sent := 0, [], [];
    }

    method EnqueueInLoop(unit: byte, address: u16, count: Count)
      requires Valid()
      modifies this
      ensures Valid() && Abstract() == Step(old(Abstract()), Enqueue(unit, address, count), world)
    {
      hide Failures, RequestBytes, TransactionFor, Transmit, Receive, Begin;
      var request := Request(arrivals, unit, address, count);
      arrivals := arrivals + 1;
      if closed {
        NotifyFailure(request);
        return;
      }
      queue := queue + [request];
      assert Abstract() == old(Abstract()).(arrivals := arrivals, outstanding := old(Abstract()).outstanding + [request]);
      StartNext();
    }

    method StartNext()
      requires Numbered() && FlagsFit()
      modifies this
      ensures Valid()
      ensures Abstract() == if old(active.Some?) then old(Abstract()) else Begin(old(Abstract()), world)
      ensures !closed ==> receiveBuffer == old(receiveBuffer) && (old(connected) ==> connected)
    {
      hide Numbered, Failures, RequestBytes, TransactionFor;
      if closed || active.Some? || queue == [] {
        return;
      }
      TakeFirst();
      assert Abstract() == old(Abstract());
      // A client whose attempt is outstanding is not connected.
      if connected && !connecting && hasClient && world(active.value.request.id).upAtStart {
        SendActive();
      } else {
        StartConnection();
      }
    }

    /** The first queued request becomes the active one, under the next transaction id. */
    method TakeFirst()
      requires Numbered() && !closed && active.None? && queue != []
      modifies `active, `queue, `nextTransaction
      ensures Numbered() && active.Some? && active.value.request == old(queue[0]) && queue == old(queue[1..])
    {
      ghost var started := arrivals - |queue|;
      active := Some(Active(queue[0], nextTransaction));
      queue := queue[1..];
      nextTransaction := (nextTransaction + 1) % 0x1_0000;
      if nextTransaction == 0 {
        nextTransaction := 1;
      }
      NextTransaction(started);
    }

    method StartConnection()
      requires Numbered() && !closed && active.Some? && timer.NoTimer? && !awaitingResponse
      requires (connected ==> hasClient) && (connecting ==> connected)
      modifies this
      ensures Valid()
      ensures Abstract() == if old(connecting) then old(Abstract())
                            else if world(old(active).value.request.id).socketOpens
                            then old(Abstract()).(link := Connecting(true))
                            else FailAll(old(Abstract()))
      ensures !closed ==> receiveBuffer == old(receiveBuffer) && connected == old(connected)
    {
      if closed || connecting {
        return;
      }
      if !hasClient {
        hasClient := true;
      }
      connecting := true;
      ArmTimeout(ConnectTimer);
      if !world(active.value.request.id).socketOpens {
        FailEverything();
        return;
      }
    }

    method OnConnection(isConnected: bool)
      requires Valid()
      // The transport reports a connection only for an attempt that is under way.
      requires isConnected ==> connecting || closed
      modifies this
      ensures Valid()
      ensures Abstract() == Step(old(Abstract()), if isConnected then Connected else Disconnected, world)
    {
      if closed {
        return;
      }
      if isConnected {
        connecting := false;
        connected := true;
        DisarmTimeout();
        SendActive();
        return;
      }
      var wasConnected := connected;
      connecting := false;
      connected := false;
      if wasConnected || active.Some? {
        FailEverything();
      }
    }

    method OnConnectTimeout()
      requires Valid() && timer.ConnectTimer?
      modifies this
      ensures Valid() && Abstract() == Step(old(Abstract()), Timeout, world)
    {
      if !closed && connecting {
        FailEverything();
      }
    }

    method OnResponseTimeout()
      requires Valid() && timer.ResponseTimer?
      modifies this
      ensures Valid() && Abstract() == Step(old(Abstract()), Timeout, world)
    {
      if !closed && active.Some? && awaitingResponse {
        FailEverything();
      }
    }

    method SendActive()
      requires Numbered() && !closed && !connecting && connected && hasClient
      requires timer.NoTimer? && !awaitingResponse
      requires active.None? ==> queue == []
      modifies this
      ensures Valid()
      ensures Abstract() == if old(active.None?) then old(Abstract()) else Transmit(old(Abstract()), world)
      ensures !closed ==> receiveBuffer == old(receiveBuffer) && connected
    {
      if closed || active.None? || !hasClient || !world(active.value.request.id).upAtSend {
        if !closed && active.Some? {
          FailEverything();
        }
        return;
      }
      var request := active.value.request;
      var frame := Pack(active.value.transaction) + Pack(0) + Pack(6) + [request.unit, 3]
                 + Pack(request.address) + Pack(request.count);
      assert frame == RequestBytes(request);
      if !world(request.id).sendSucceeds {
        FailEverything();
        return;
      }
      sent := sent + [Transmission(request, frame)];
      awaitingResponse := true;
      ArmTimeout(ResponseTimer);
    }

    method OnData(bytes: seq<byte>)
      requires Valid()
      // The transport delivers bytes only over a channel that has been connected.
      requires connected || closed
      modifies this
      ensures Valid() && Abstract() == Step(old(Abstract()), Data(bytes), world)
    {
      if closed {
        return;
      }
      receiveBuffer := receiveBuffer + bytes;
      ghost var result := Receive(old(Abstract()), bytes, world);
      assert Abstract().(buffer := []) == old(Abstract()).(buffer := []);
      ReceiveJoined(old(Abstract()), bytes, world);
      while |receiveBuffer| >= 7
        invariant Valid() && !closed && connected
        invariant Receive(Abstract().(buffer := []), receiveBuffer, world) == result
        decreases |receiveBuffer|
      {
        var more := ReceiveOne();
        if !more {
          return;
        }
      }
      ReceiveIncomplete(Abstract(), receiveBuffer, world);
    }

    /** One pass of the receive loop: a whole frame, a bad length, or not enough bytes yet. */
    method ReceiveOne() returns (more: bool)
      requires Valid() && !closed && connected && |receiveBuffer| >= 7
      modifies this
      ensures Valid()
      ensures more ==> !closed && connected && |receiveBuffer| < old(|receiveBuffer|)
      ensures old(Receive(Abstract().(buffer := []), receiveBuffer, world))
           == if more then Receive(Abstract().(buffer := []), receiveBuffer, world) else Abstract()
    {
      hide Numbered, FlagsFit, Receive, Resolve, Failures, TakeAll;
      var length := ReadU16(receiveBuffer[4], receiveBuffer[5]);
      if length < 3 || length > 254 {
        ReceiveBadLength(Abstract(), receiveBuffer, world);
        receiveBuffer := [];
        FinishActiveError();
        return false;
      }
      var frameSize := 6 + length;
      if |receiveBuffer| < frameSize {
        ReceiveIncomplete(Abstract(), receiveBuffer, world);
        return false;
      }
      ReceiveFrame(Abstract(), receiveBuffer, world);
      var frame := receiveBuffer[..frameSize];
      receiveBuffer := receiveBuffer[frameSize..];
      HandleFrame(frame);
      return !closed;
    }

    method HandleFrame(frame: seq<byte>)
      requires Valid() && !closed && connected && Delimited(frame)
      modifies this
      ensures Valid() && Abstract() == Take(old(Abstract()), Frame(frame), world)
      ensures !closed ==> receiveBuffer == old(receiveBuffer) && connected
    {
      if active.None? {
        return;
      }
      var answer := Decode(frame, active.value);
      if answer.Some? {
        FinishActiveSuccess(answer.value);
      } else {
        FinishActiveError();
      }
    }

    /** The field-by-field comparison of a frame with the active request. */
    static method Decode(frame: seq<byte>, active: Active) returns (answer: Option<seq<u16>>)
      requires Delimited(frame)
      ensures answer == Answer(frame, active.transaction, active.request.unit, active.request.count)
    {
      hide Deserialize, AnswerTo;
      AnswerByFields(frame, active.transaction, active.request.unit, active.request.count);
      var pdu := frame[7..];
      assert pdu[2..] == frame[9..];
      assert active.request.count * 2 < 0x100;
      if ReadU16(frame[0], frame[1]) != active.transaction {
        return None;
      }
      if ReadU16(frame[2], frame[3]) != 0 {
        return None;
      }
      if frame[6] != active.request.unit {
        return None;
      }
      if pdu[0] == 0x83 {
        return None;
      }
      if pdu[0] != 0x03 {
        return None;
      }
      if |pdu| < 2 || pdu[1] != (active.request.count * 2) % 0x100 {
        return None;
      }
      if |pdu| != pdu[1] + 2 {
        return None;
      }
      var registers := ReadRegisters(pdu, active.request.count);
      return Some(registers);
    }

    static method ReadRegisters(pdu: seq<byte>, count: Count) returns (registers: seq<u16>)
      requires |pdu| == 2 + 2 * count
      ensures registers == Deserialize(pdu[2..])
    {
      registers := [];
      var offset := 2;
      while offset < |pdu|
        invariant 2 <= offset <= |pdu| && offset == 2 * |registers| + 2
        invariant forall i :: 0 <= i < |registers| ==> registers[i] == ReadU16(pdu[2 + 2 * i], pdu[3 + 2 * i])
      {
        registers := registers + [ReadU16(pdu[offset], pdu[offset + 1])];
        offset := offset + 2;
      }
    }

    method FinishActiveSuccess(registers: seq<u16>)
      requires Valid() && !closed && connected && active.Some?
      modifies this
      ensures Valid() && Abstract() == Resolve(old(Abstract()), Success(registers), world)
      ensures !closed ==> receiveBuffer == old(receiveBuffer) && connected
    {
      hide RequestBytes, TransactionFor, Transmit, Failures;
      DisarmTimeout();
      awaitingResponse := false;
      var request := active.value.request;
      active := None;
      log := log + [Resolution(request.id, Success(registers))];
      ghost var before := old(Abstract());
      assert before.outstanding[1..] == queue;
      assert Abstract() == before.(
        link := if before.link.Connecting? then Connecting(false) else before.link,
        outstanding := before.outstanding[1..],
        log := before.log + [Resolution(request.id, Success(registers))]);
      if !closed {
        StartNext();
      }
    }

    method FinishActiveError()
      requires Valid() && !closed && connected
      modifies this
      ensures Valid()
      ensures Abstract() == if old(active.None?) then old(Abstract()) else Resolve(old(Abstract()), Failed, world)
      ensures !closed ==> receiveBuffer == old(receiveBuffer) && connected
    {
      hide RequestBytes, TransactionFor, Transmit, Failures;
      if active.None? {
        return;
      }
      DisarmTimeout();
      awaitingResponse := false;
      var request := active.value.request;
      active := None;
      ghost var before := old(Abstract());
      assert before.outstanding[1..] == queue;
      ghost var left := before.(
        link := if before.link.Connecting? then Connecting(false) else before.link,
        outstanding := before.outstanding[1..]);
      assert Abstract() == left;
      NotifyFailure(request);
      if !closed {
        assert Abstract() == left.(log := before.log + [Resolution(request.id, Failed)]);
        StartNext();
      }
    }

    /** Runs the failure callback of a request that has left the session; it may close the session. */
    method NotifyFailure(request: Request)
      requires closed || (Numbered() && FlagsFit() && active.None?)
      modifies this
      ensures old(closed) ==> unchanged(this`queue, this`active, this`receiveBuffer, this`timer,
                this`nextTransaction, this`hasClient, this`connecting, this`connected,
                this`awaitingResponse, this`closed, this`arrivals, this`sent)
      ensures old(closed) ==> log == old(log) + [Resolution(request.id, Failed)]
      ensures !old(closed) ==> closed == world(request.id).failureCloses
      ensures !old(closed) ==> Numbered() && FlagsFit() && active.None?
      ensures !old(closed) ==>
                var left := old(Abstract()).(log := old(log) + [Resolution(request.id, Failed)]);
                Abstract() == if closed then FailAll(left) else left
      ensures !closed ==> unchanged(this`receiveBuffer, this`queue, this`connected)
      decreases !closed, 2
    {
      log := log + [Resolution(request.id, Failed)];
      if world(request.id).failureCloses {
        CloseInLoop();
      }
    }

    method CloseInLoop()
      requires closed || Numbered()
      modifies this
      ensures old(closed) ==> unchanged(this)
      ensures !old(closed) ==> Valid() && Abstract() == FailAll(old(Abstract()))
      decreases !closed, 1
    {
      if closed {
        return;
      }
      FailEverything();
    }

    method FailEverything()
      requires Numbered() && !closed
      modifies this
      ensures Valid() && Abstract() == FailAll(old(Abstract()))
      decreases !closed, 0
    {
      hide TransactionFor, Failures;
      ghost var before := Abstract();
      closed := true;
      connecting := false;
      connected := false;
      awaitingResponse := false;
      DisarmTimeout();
      FailActive();
      var queued := queue;
      queue := [];
      FailQueued(queued);
      FailuresAppend(if old(active).Some? then [old(active).value.request] else [], queued);
      assert log == before.log + Failures(before.outstanding);
    }

    method FailActive()
      requires closed
      modifies this
      ensures active == None
      ensures log == old(log) + if old(active).Some? then [Resolution(old(active).value.request.id, Failed)] else []
      ensures unchanged(this`queue, this`receiveBuffer, this`timer,
                this`nextTransaction, this`hasClient, this`connecting, this`connected,
                this`awaitingResponse, this`closed, this`arrivals, this`sent)
      decreases false, 3
    {
      if active.Some? {
        var request := active.value.request;
        active := None;
        NotifyFailure(request);
      }
    }

    method FailQueued(queued: seq<Request>)
      requires closed
      modifies this
      ensures log == old(log) + Failures(queued)
      ensures unchanged(this`queue, this`active, this`receiveBuffer, this`timer,
                this`nextTransaction, this`hasClient, this`connecting, this`connected,
                this`awaitingResponse, this`closed, this`arrivals, this`sent)
      decreases false, 3
    {
      for i := 0 to |queued|
        invariant log == old(log) + Failures(queued[..i])
        invariant unchanged(this`queue, this`active, this`receiveBuffer, this`timer,
                this`nextTransaction, this`hasClient, this`connecting, this`connected,
                this`awaitingResponse, this`closed, this`arrivals, this`sent)
      {
        NotifyFailure(queued[i]);
        assert queued[..i + 1] == queued[..i] + [queued[i]];
      }
      assert queued[..|queued|] == queued;
    }

    method ArmTimeout(kind: Timer)
      modifies this`timer
      ensures timer == kind
    {
      DisarmTimeout();
      timer := kind;
    }

    method DisarmTimeout()
      modifies this`timer
      ensures timer == NoTimer
    {
      if timer != NoTimer {
        timer := NoTimer;
      }
    }
  }
}
