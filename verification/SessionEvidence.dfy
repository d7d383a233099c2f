/** Where a session's successes come from: frames it has received, over every run. */
module SessionEvidence {
  import opened Bytes
  import opened Framing
  import opened SessionSpec

  /** The frames among these items. */
  function FramesIn(items: seq<Item>): set<seq<byte>> {
    set item | item in items && item.Frame? :: item.bytes
  }

  /** The frames an event brings. */
  function FramesOf(s: Session, event: Event): set<seq<byte>> {
    if event.Data? && !s.link.Closed? then FramesIn(Deframe(s.buffer + event.bytes).items) else {}
  }

  /** A success is the exact function 03 reply to the request of its number, and was received. */
  ghost predicate Answered(resolution: Resolution, requests: seq<Request>, heard: set<seq<byte>>) {
    resolution.outcome.Success? ==>
      && resolution.id < |requests|
      && var request := requests[resolution.id];
         && |resolution.outcome.registers| == request.count
         && ReplyFrame(TransactionFor(request.id), request.unit, resolution.outcome.registers) in heard
  }

  ghost predicate AllAnswered(log: seq<Resolution>, requests: seq<Request>, heard: set<seq<byte>>) {
    forall i :: 0 <= i < |log| ==> Answered(log[i], requests, heard)
  }

  /** The outstanding requests are among those handed in, under their numbers. */
  ghost predicate Known(outstanding: seq<Request>, requests: seq<Request>) {
    forall i :: 0 <= i < |outstanding| ==>
      outstanding[i].id < |requests| && requests[outstanding[i].id] == outstanding[i]
  }

  ghost predicate Evident(s: Session, requests: seq<Request>, heard: set<seq<byte>>) {
    && Known(s.outstanding, requests)
    && AllAnswered(s.log, requests, heard)
    && forall k :: 0 <= k < |requests| ==> requests[k].id == k
  }

  /** More requests and more frames take no evidence away. */
  lemma MoreEvidence(s: Session, requests: seq<Request>, heard: set<seq<byte>>, request: Request, more: set<seq<byte>>)
    requires Evident(s, requests, heard) && request.id == |requests|
    ensures Evident(s, requests, heard + more) && Evident(s, requests + [request], heard + more)
  {
    hide ReplyFrame;
    forall i | 0 <= i < |s.log|
      ensures Answered(s.log[i], requests, heard + more) && Answered(s.log[i], requests + [request], heard + more)
    {
      assert Answered(s.log[i], requests, heard);
    }
  }

  lemma FailuresAreEvident(s: Session, requests: seq<Request>, heard: set<seq<byte>>)
    requires Evident(s, requests, heard)
    ensures Evident(FailAll(s), requests, heard)
  {
    hide ReplyFrame;
    forall i | 0 <= i < |FailAll(s).log|
      ensures Answered(FailAll(s).log[i], requests, heard)
    {
      assert i < |s.log| ==> Answered(s.log[i], requests, heard);
    }
  }

  lemma BeginIsEvident(s: Session, requests: seq<Request>, heard: set<seq<byte>>, world: World)
    requires Evident(s, requests, heard)
    ensures Evident(Begin(s, world), requests, heard)
    ensures s.outstanding != [] ==> Evident(Transmit(s, world), requests, heard)
  {
    hide AllAnswered, Known, FailAll;
    FailuresAreEvident(s, requests, heard);
  }

  lemma ResolveIsEvident(s: Session, outcome: Outcome, requests: seq<Request>, heard: set<seq<byte>>, world: World)
    requires Evident(s, requests, heard) && s.outstanding != []
    requires Answered(Resolution(s.outstanding[0].id, outcome), requests, heard)
    ensures Evident(Resolve(s, outcome, world), requests, heard)
  {
    hide Answered, Begin, FailAll;
    var left := s.(
      link := if s.link.Connecting? then Connecting(false) else s.link,
      outstanding := s.outstanding[1..],
      log := s.log + [Resolution(s.outstanding[0].id, outcome)]);
    assert Evident(left, requests, heard);
    FailuresAreEvident(left, requests, heard);
    BeginIsEvident(left, requests, heard, world);
  }

  /** What a frame received is for the active request. */
  lemma FrameIsEvidence(request: Request, frame: seq<byte>, requests: seq<Request>, heard: set<seq<byte>>)
    requires Known([request], requests) && frame in heard
    ensures Answered(Resolution(request.id, AnswerTo(frame, request)), requests, heard)
  {
    hide ReplyFrame, Answer;
    assert [request][0] == request;
    var outcome := AnswerTo(frame, request);
    if outcome.Success? {
      AnswerIsExact(frame, TransactionFor(request.id), request.unit, request.count, outcome.registers);
    }
  }

  lemma {:induction false} TakeAllIsEvident(s: Session, items: seq<Item>, requests: seq<Request>, heard: set<seq<byte>>, world: World)
    requires Evident(s, requests, heard) && FramesIn(items) <= heard
    ensures Evident(TakeAll(s, items, world), requests, heard)
    decreases |items|
  {
    hide Resolve, AllAnswered, AnswerTo;
    if !s.link.Closed? && items != [] {
      assert items[0] in items && forall item :: item in items[1..] ==> item in items;
      if s.outstanding != [] {
        ResolveIsEvident(s, Failed, requests, heard, world);
        if items[0].Frame? {
          assert items[0].bytes in FramesIn(items);
          FrameIsEvidence(s.outstanding[0], items[0].bytes, requests, heard);
          ResolveIsEvident(s, AnswerTo(items[0].bytes, s.outstanding[0]), requests, heard, world);
        }
      }
      assert FramesIn(items[1..]) <= heard by {
        forall frame | frame in FramesIn(items[1..])
          ensures frame in FramesIn(items)
        {
        }
      }
      TakeAllIsEvident(Take(s, items[0], world), items[1..], requests, heard, world);
    }
  }

  /** The requests of a session after an event. */
  function RequestsAfter(s: Session, requests: seq<Request>, event: Event): seq<Request> {
    if event.Enqueue? then requests + [Request(s.arrivals, event.unit, event.address, event.count)] else requests
  }

  lemma EnqueueIsEvident(s: Session, event: Event, requests: seq<Request>, heard: set<seq<byte>>, world: World)
    requires Evident(s, requests, heard) && s.arrivals == |requests| && event.Enqueue?
    ensures Evident(Step(s, event, world), RequestsAfter(s, requests, event), heard)
  {
    hide Begin, ReplyFrame;
    var request := Request(s.arrivals, event.unit, event.address, event.count);
    MoreEvidence(s, requests, heard, request, {});
    assert heard + {} == heard;
    var longer := requests + [request];
    if s.link.Closed? {
      var after := Step(s, event, world);
      forall i | 0 <= i < |after.log|
        ensures Answered(after.log[i], longer, heard)
      {
        assert i < |s.log| ==> Answered(s.log[i], longer, heard);
      }
    } else {
      var accepted := s.(arrivals := s.arrivals + 1, outstanding := s.outstanding + [request]);
      assert Evident(accepted, longer, heard);
      BeginIsEvident(accepted, longer, heard, world);
    }
  }

  /** Whatever happens to a session, its successes are exact replies it has received. */
  lemma StepIsEvident(s: Session, event: Event, requests: seq<Request>, heard: set<seq<byte>>, world: World)
    requires Evident(s, requests, heard) && s.arrivals == |requests|
    ensures Evident(Step(s, event, world), RequestsAfter(s, requests, event), heard + FramesOf(s, event))
  {
    hide AllAnswered, Known, FailAll, Begin, TakeAll, Transmit, Deframe, FramesIn;
    var more := FramesOf(s, event);
    MoreEvidence(s, requests, heard, Request(|requests|, 0, 0, 1), more);
    FailuresAreEvident(s, requests, heard + more);
    match event
    case Enqueue(unit, address, count) =>
      EnqueueIsEvident(s, event, requests, heard + more, world);
    case Connected =>
      var up := s.(link := Up);
      assert Evident(up, requests, heard + more);
      if s.outstanding != [] {
        BeginIsEvident(up, requests, heard + more, world);
      }
    case Data(bytes) =>
      if !s.link.Closed? {
        var cut := Deframe(s.buffer + bytes);
        assert Evident(s.(buffer := cut.rest), requests, heard + more);
        TakeAllIsEvident(s.(buffer := cut.rest), cut.items, requests, heard + more, world);
      }
    case _ =>
  }
}
