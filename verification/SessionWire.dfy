/** What a session puts on the wire, over every run. */
module SessionWire {
  import opened Bytes
  import opened Framing
  import opened SessionSpec
  import opened SessionProperties

  /** The number of the request that is active, or will be next. */
  function ActiveId(s: Session): int {
    s.arrivals - |s.outstanding|
  }

  /** The request behind the last one that may have been sent. */
  function SentBound(s: Session): int {
    ActiveId(s) + if s.link.Up? && s.outstanding != [] then 1 else 0
  }

  /** Requests were sent in order, each once, as their 12 bytes, and none ahead of its turn. */
  ghost predicate WireFits(s: Session) {
    && (forall i, j :: 0 <= i < j < |s.sent| ==> s.sent[i].request.id < s.sent[j].request.id)
    && (forall i :: 0 <= i < |s.sent| ==>
          s.sent[i].frame == RequestBytes(s.sent[i].request) && s.sent[i].request.id < SentBound(s))
  }

  /** With the link up the active request is the one sent last. */
  ghost predicate ActiveIsSent(s: Session) {
    s.link.Up? && s.outstanding != [] ==>
      s.sent != [] && s.sent[|s.sent| - 1].request == s.outstanding[0]
  }

  /** The outstanding requests are numbered on from the active one. */
  ghost predicate OutstandingNumbered(s: Session) {
    |s.outstanding| <= s.arrivals && forall i :: 0 <= i < |s.outstanding| ==> s.outstanding[i].id == ActiveId(s) + i
  }

  ghost predicate WireInvariant(s: Session) {
    WireFits(s) && ActiveIsSent(s) && OutstandingNumbered(s)
  }

  /** Nothing of the active request has been sent yet. */
  ghost predicate Unsent(s: Session) {
    && OutstandingNumbered(s)
    && (forall i, j :: 0 <= i < j < |s.sent| ==> s.sent[i].request.id < s.sent[j].request.id)
    && (forall i :: 0 <= i < |s.sent| ==>
          s.sent[i].frame == RequestBytes(s.sent[i].request) && s.sent[i].request.id < ActiveId(s))
  }

  lemma FailAllFits(s: Session)
    requires WireFits(s) && |s.outstanding| <= s.arrivals
    ensures WireInvariant(FailAll(s))
  {
  }

  lemma TransmitFits(s: Session, world: World)
    requires Unsent(s) && s.outstanding != []
    ensures WireInvariant(Transmit(s, world))
  {
    hide RequestBytes, Failures;
  }

  lemma BeginFits(s: Session, world: World)
    requires Unsent(s)
    ensures WireInvariant(Begin(s, world))
  {
    hide RequestBytes, Failures, Transmit;
    if s.outstanding != [] {
      TransmitFits(s, world);
    }
  }

  lemma ResolveFits(s: Session, outcome: Outcome, world: World)
    requires WireInvariant(s) && s.outstanding != []
    ensures WireInvariant(Resolve(s, outcome, world))
  {
    hide RequestBytes, Failures, Begin;
    var left := s.(
      link := if s.link.Connecting? then Connecting(false) else s.link,
      outstanding := s.outstanding[1..],
      log := s.log + [Resolution(s.outstanding[0].id, outcome)]);
    assert Unsent(left);
    BeginFits(left, world);
  }

  lemma {:induction false} TakeAllFits(s: Session, items: seq<Item>, world: World)
    requires WireInvariant(s)
    ensures WireInvariant(TakeAll(s, items, world))
    decreases |items|
  {
    hide WireInvariant, Resolve;
    if !s.link.Closed? && items != [] {
      if s.outstanding != [] {
        ResolveFits(s, Failed, world);
        if items[0].Frame? {
          ResolveFits(s, AnswerTo(items[0].bytes, s.outstanding[0]), world);
        }
      }
      TakeAllFits(Take(s, items[0], world), items[1..], world);
    }
  }

  lemma EnqueueFits(s: Session, unit: byte, address: u16, count: Count, world: World)
    requires Invariant(s) && WireInvariant(s)
    ensures WireInvariant(Step(s, Enqueue(unit, address, count), world))
  {
    hide RequestBytes, Failures, Begin, Deframe;
    var request := Request(s.arrivals, unit, address, count);
    var accepted := s.(arrivals := s.arrivals + 1, outstanding := s.outstanding + [request]);
    if s.outstanding == [] {
      assert Unsent(accepted);
      BeginFits(accepted, world);
    }
  }

  lemma StepFits(s: Session, event: Event, world: World)
    requires Invariant(s) && WireInvariant(s)
    ensures WireInvariant(Step(s, event, world))
  {
    hide RequestBytes, Failures, Begin, Deframe, TakeAll, Transmit;
    FailAllFits(s);
    match event
    case Enqueue(unit, address, count) =>
      EnqueueFits(s, unit, address, count, world);
    case Connected =>
      if s.link.Connecting? && s.outstanding != [] {
        assert Unsent(s.(link := Up));
        TransmitFits(s.(link := Up), world);
      }
    case Data(bytes) =>
      if !s.link.Closed? {
        var cut := Deframe(s.buffer + bytes);
        TakeAllFits(s.(buffer := cut.rest), cut.items, world);
      }
    case _ =>
  }

  lemma {:induction false} RunFits(s: Session, events: seq<Event>, world: World)
    requires Invariant(s) && WireInvariant(s)
    ensures WireInvariant(Run(s, events, world))
    decreases |events|
  {
    if events != [] {
      StepFits(s, events[0], world);
      StepKeepsInvariant(s, events[0], world);
      RunFits(Step(s, events[0], world), events[1..], world);
    }
  }

  /**
   * In every run requests go on the wire in arrival order, each at most once and as its own 12
   * bytes; while the link is up the active request is the one that was sent last.
   */
  lemma SentOnceInOrder(events: seq<Event>, world: World, i: nat, j: nat)
    requires i <= j < |Run(Initial, events, world).sent|
    ensures var s := Run(Initial, events, world);
            && (i < j ==> s.sent[i].request.id < s.sent[j].request.id)
            && s.sent[j].request.id < s.arrivals
            && s.sent[i].frame == RequestBytes(s.sent[i].request)
            && (s.link.Up? && s.outstanding != [] ==> s.sent[|s.sent| - 1].request == s.outstanding[0])
  {
    hide Run, RequestBytes, Invariant;
    StartsFitting();
    RunFits(Initial, events, world);
    WireSays(Run(Initial, events, world), i, j);
  }

  lemma StartsFitting()
    ensures Invariant(Initial) && WireInvariant(Initial)
  {
  }

  lemma WireSays(s: Session, i: nat, j: nat)
    requires WireInvariant(s) && i <= j < |s.sent|
    ensures (i < j ==> s.sent[i].request.id < s.sent[j].request.id) && s.sent[j].request.id < s.arrivals
    ensures s.sent[i].frame == RequestBytes(s.sent[i].request)
    ensures s.link.Up? && s.outstanding != [] ==> s.sent[|s.sent| - 1].request == s.outstanding[0]
  {
    hide RequestBytes;
  }
}
