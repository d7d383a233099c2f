/** What every run of the Modbus session keeps. */
module SessionProperties {
  import opened Bytes
  import opened Framing
  import opened SessionSpec

  function Naturals(n: nat): seq<nat> {
    seq(n, i => i)
  }

  function RequestIds(requests: seq<Request>): seq<nat> {
    seq(|requests|, i requires 0 <= i < |requests| => requests[i].id)
  }

  function ResolvedIds(log: seq<Resolution>): seq<nat> {
    seq(|log|, i requires 0 <= i < |log| => log[i].id)
  }

  /** Every arrival was resolved, in arrival order, or is still outstanding, in arrival order. */
  ghost predicate Accounted(s: Session) {
    ResolvedIds(s.log) + RequestIds(s.outstanding) == Naturals(s.arrivals)
  }

  ghost predicate Invariant(s: Session) {
    && Accounted(s)
    && (s.link.Down? || s.link.Closed? ==> s.outstanding == [])
    && (s.link == Connecting(true) ==> s.outstanding != [])
    && (s.link.Closed? ==> s.buffer == [])
    && Deframe(s.buffer) == Cut([], s.buffer)
  }

  lemma FailAllAccounts(s: Session)
    requires Accounted(s)
    ensures Accounted(FailAll(s)) && s.log <= FailAll(s).log
  {
  }

  /** What starting a request needs: a link state that fits, and every arrival accounted for. */
  ghost predicate Startable(s: Session) {
    && Accounted(s)
    && (s.link.Closed? ==> s.outstanding == [] && s.buffer == [])
    && (s.link == Connecting(true) ==> s.outstanding != [])
    && Deframe(s.buffer) == Cut([], s.buffer)
  }

  lemma BeginKeepsInvariant(s: Session, world: World)
    requires Startable(s)
    ensures Invariant(Begin(s, world)) && s.log <= Begin(s, world).log
    ensures Begin(s, world).arrivals == s.arrivals
  {
  }

  lemma ResolveKeepsInvariant(s: Session, outcome: Outcome, world: World)
    requires Invariant(s) && s.outstanding != []
    ensures Invariant(Resolve(s, outcome, world))
    ensures Resolve(s, outcome, world).arrivals == s.arrivals
    ensures s.log + [Resolution(s.outstanding[0].id, outcome)] <= Resolve(s, outcome, world).log
  {
    var left := s.(
      link := if s.link.Connecting? then Connecting(false) else s.link,
      outstanding := s.outstanding[1..],
      log := s.log + [Resolution(s.outstanding[0].id, outcome)]);
    assert ResolvedIds(left.log) == ResolvedIds(s.log) + [s.outstanding[0].id];
    assert RequestIds(s.outstanding) == [s.outstanding[0].id] + RequestIds(left.outstanding);
    assert Accounted(left);
    FailAllAccounts(left);
    BeginKeepsInvariant(left, world);
  }

  lemma {:induction false} TakeAllKeepsInvariant(s: Session, items: seq<Item>, world: World)
    requires Invariant(s)
    ensures Invariant(TakeAll(s, items, world)) && s.log <= TakeAll(s, items, world).log
    ensures TakeAll(s, items, world).arrivals == s.arrivals
    decreases |items|
  {
    if !s.link.Closed? && items != [] {
      if s.outstanding != [] {
        ResolveKeepsInvariant(s, Failed, world);
        if items[0].Frame? {
          ResolveKeepsInvariant(s, AnswerTo(items[0].bytes, s.outstanding[0]), world);
        }
      }
      TakeAllKeepsInvariant(Take(s, items[0], world), items[1..], world);
    }
  }

  lemma StepKeepsInvariant(s: Session, event: Event, world: World)
    requires Invariant(s)
    ensures Invariant(Step(s, event, world)) && s.log <= Step(s, event, world).log
    ensures Step(s, event, world).arrivals == s.arrivals + if event.Enqueue? then 1 else 0
  {
    FailAllAccounts(s);
    match event
    case Enqueue(unit, address, count) =>
      var request := Request(s.arrivals, unit, address, count);
      assert Naturals(s.arrivals + 1) == Naturals(s.arrivals) + [s.arrivals];
      if s.link.Closed? {
        assert ResolvedIds(Step(s, event, world).log) == ResolvedIds(s.log) + [request.id];
      } else {
        var accepted := s.(arrivals := s.arrivals + 1, outstanding := s.outstanding + [request]);
        assert RequestIds(accepted.outstanding) == RequestIds(s.outstanding) + [request.id];
        BeginKeepsInvariant(accepted, world);
      }
    case Data(bytes) =>
      if !s.link.Closed? {
        var cut := Deframe(s.buffer + bytes);
        RestIsProperPrefix(s.buffer + bytes);
        TakeAllKeepsInvariant(s.(buffer := cut.rest), cut.items, world);
      }
    case _ =>
  }

  function Submissions(events: seq<Event>): nat {
    if events == [] then 0 else (if events[0].Enqueue? then 1 else 0) + Submissions(events[1..])
  }

  lemma {:induction false} RunKeepsInvariant(s: Session, events: seq<Event>, world: World)
    requires Invariant(s)
    ensures Invariant(Run(s, events, world)) && s.log <= Run(s, events, world).log
    ensures Run(s, events, world).arrivals == s.arrivals + Submissions(events)
    decreases |events|
  {
    if events != [] {
      StepKeepsInvariant(s, events[0], world);
      RunKeepsInvariant(Step(s, events[0], world), events[1..], world);
    }
  }

  /**
   * Over every interleaving each of the requests handed in is resolved or outstanding, exactly
   * once, in arrival order; a closed session has resolved all of them.
   */
  lemma ExactlyOnceInOrder(events: seq<Event>, world: World)
    ensures var s := Run(Initial, events, world);
            && ResolvedIds(s.log) + RequestIds(s.outstanding) == Naturals(Submissions(events))
            && (s.link.Closed? ==> ResolvedIds(s.log) == Naturals(Submissions(events)))
  {
    RunKeepsInvariant(Initial, events, world);
    var s := Run(Initial, events, world);
    if s.link.Closed? {
      assert ResolvedIds(s.log) + RequestIds(s.outstanding) == ResolvedIds(s.log);
    }
  }

  lemma {:induction false} RunAppend(s: Session, first: seq<Event>, second: seq<Event>, world: World)
    ensures Run(s, first + second, world) == Run(Run(s, first, world), second, world)
    decreases |first|
  {
    if first == [] {
      assert first + second == second;
    } else {
      assert (first + second)[1..] == first[1..] + second;
      RunAppend(Step(s, first[0], world), first[1..], second, world);
    }
  }

  /** A resolution is final: whatever happens later, the log only grows behind it. */
  lemma ResolutionsAreFinal(first: seq<Event>, second: seq<Event>, world: World)
    ensures Run(Initial, first, world).log <= Run(Initial, first + second, world).log
  {
    RunAppend(Initial, first, second, world);
    RunKeepsInvariant(Initial, first, world);
    RunKeepsInvariant(Run(Initial, first, world), second, world);
  }

  /** When the pending timer fires, every outstanding request is resolved and the session closed. */
  lemma TimeoutResolvesAll(events: seq<Event>, world: World)
    requires Armed(Run(Initial, events, world))
    ensures var s := Run(Initial, events + [Timeout], world);
            s.link.Closed? && ResolvedIds(s.log) == Naturals(Submissions(events))
  {
    var s := Run(Initial, events, world);
    RunAppend(Initial, events, [Timeout], world);
    assert Run(s, [Timeout], world) == Run(Step(s, Timeout, world), [Timeout][1..], world) == FailAll(s);
    RunKeepsInvariant(Initial, events, world);
    FailAllAccounts(s);
    assert ResolvedIds(FailAll(s).log) + RequestIds([]) == ResolvedIds(FailAll(s).log);
  }

  /**
   * What ends a session from outside: the loss of a link that is up or being attempted, the pending
   * timer, and a close in any state but closed.
   */
  predicate Ends(s: Session, event: Event) {
    || (event.Disconnected? && (s.link.Up? || s.link.Connecting?))
    || (event.Timeout? && Armed(s))
    || (event.Close? && !s.link.Closed?)
  }

  /**
   * In every run a break, a timeout or a close that ends the session fails every outstanding
   * request, in order, sends nothing and leaves the session closed; one that does not changes
   * nothing.
   */
  lemma EndingFailsAll(events: seq<Event>, world: World, ending: Event)
    requires ending.Disconnected? || ending.Timeout? || ending.Close?
    ensures var s, after := Run(Initial, events, world), Run(Initial, events + [ending], world);
            if Ends(s, ending) then
              && after.link.Closed? && after.outstanding == [] && after.sent == s.sent
              && |after.log| == |s.log| + |s.outstanding| && s.log <= after.log
              && (forall i :: 0 <= i < |s.outstanding| ==> after.log[|s.log| + i] == Resolution(s.outstanding[i].id, Failed))
              && ResolvedIds(after.log) == Naturals(Submissions(events))
            else after == s
  {
    var s := Run(Initial, events, world);
    RunAppend(Initial, events, [ending], world);
    assert Run(s, [ending], world) == Run(Step(s, ending, world), [ending][1..], world) == Step(s, ending, world);
    RunKeepsInvariant(Initial, events, world);
    if Ends(s, ending) {
      FailAllAccounts(s);
      assert ResolvedIds(FailAll(s).log) + RequestIds([]) == ResolvedIds(FailAll(s).log);
    }
  }

  /** The transport has the link up as this request is sent, and takes its bytes. */
  predicate Sends(id: nat, world: World) {
    world(id).upAtSend && world(id).sendSucceeds
  }

  /**
   * In every run an arrival is sent at once exactly when nothing else is outstanding over a link
   * that is up and stays so; it fails at once when the session is closed, when it cannot be sent,
   * or when it needs a connection and no socket can be had; and in every other case it waits.
   */
  lemma ArrivalIsSentWaitsOrFails(events: seq<Event>, world: World, unit: byte, address: u16, count: Count)
    ensures var s, after := Run(Initial, events, world), Run(Initial, events + [Enqueue(unit, address, count)], world);
            var id := Submissions(events);
            var request := Request(id, unit, address, count);
            var idle, up := s.outstanding == [] && !s.link.Closed?, s.link.Up? && world(id).upAtStart;
            var fails := s.link.Closed? || (idle && up && !Sends(id, world))
                         || (idle && !up && !s.link.Connecting? && !world(id).socketOpens);
            && after.sent == (if idle && up && Sends(id, world) then s.sent + [Transmission(request, RequestBytes(request))] else s.sent)
            && after.log == (if fails then s.log + [Resolution(id, Failed)] else s.log)
            && after.outstanding == (if fails then [] else s.outstanding + [request])
            && after.link == (if fails then Closed
                              else if idle && !up && !s.link.Connecting? then Connecting(true)
                              else s.link)
  {
    var s := Run(Initial, events, world);
    var arrival := Enqueue(unit, address, count);
    RunAppend(Initial, events, [arrival], world);
    assert Run(s, [arrival], world) == Run(Step(s, arrival, world), [arrival][1..], world) == Step(s, arrival, world);
    RunKeepsInvariant(Initial, events, world);
  }

  /**
   * In every run an attempt that succeeds leaves the link up, and what waits first is sent, or
   * everything fails if it cannot be; over any other link the news changes nothing.
   */
  lemma ConnectionIsUsed(events: seq<Event>, world: World)
    ensures var s, after := Run(Initial, events, world), Run(Initial, events + [Connected], world);
            if !s.link.Connecting? then after == s
            else if s.outstanding == [] then after == s.(link := Up)
            else
              var first := s.outstanding[0];
              if Sends(first.id, world) then
                after == s.(link := Up, sent := s.sent + [Transmission(first, RequestBytes(first))])
              else
                && after.link.Closed? && after.outstanding == [] && after.sent == s.sent
                && |after.log| == |s.log| + |s.outstanding| && s.log <= after.log
                && forall i :: 0 <= i < |s.outstanding| ==> after.log[|s.log| + i] == Resolution(s.outstanding[i].id, Failed)
  {
    var s := Run(Initial, events, world);
    RunAppend(Initial, events, [Connected], world);
    assert Run(s, [Connected], world) == Run(Step(s, Connected, world), [Connected][1..], world) == Step(s, Connected, world);
  }

  /** A frame answers only the active request: it is the next resolution, with exactly that answer. */
  lemma FrameResolvesOnlyActive(s: Session, frame: seq<byte>, world: World)
    requires Invariant(s) && s.outstanding != [] && !s.link.Closed?
    ensures var after := Take(s, Frame(frame), world);
            var outcome := AnswerTo(frame, s.outstanding[0]);
            && s.log + [Resolution(s.outstanding[0].id, outcome)] <= after.log
            && (!after.link.Closed? ==>
                  && after.log == s.log + [Resolution(s.outstanding[0].id, outcome)]
                  && after.outstanding == s.outstanding[1..])
  {
  }

  // No request is left without a timer

  /** The session has no timer for its active request. */
  predicate Stranded(s: Session) {
    s.link == Connecting(false) && s.outstanding != []
  }

  function OutcomeOf(item: Item, request: Request): Outcome {
    if item.BadLength? then Failed else AnswerTo(item.bytes, request)
  }

  /** The failure callback of the request this item resolves closes the session. */
  predicate Closes(item: Item, request: Request, world: World) {
    OutcomeOf(item, request).Failed? && world(request.id).failureCloses
  }

  /** As this request is begun over a link that was up, the link still is, and it can be sent. */
  predicate StaysUp(request: Request, world: World) {
    world(request.id).upAtStart && world(request.id).upAtSend && world(request.id).sendSucceeds
  }

  /** As this request is begun the link is found down, and an attempt to bring it up starts. */
  predicate Reconnects(request: Request, world: World) {
    !world(request.id).upAtStart && world(request.id).socketOpens
  }

  function Least(a: nat, b: nat): nat {
    if a < b then a else b
  }

  /** While these requests are worked off, none of the items closes the session. */
  ghost predicate NoneCloses(requests: seq<Request>, items: seq<Item>, world: World) {
    forall i :: 0 <= i < Least(|requests|, |items|) ==> !Closes(items[i], requests[i], world)
  }

  /**
   * Over a link that is up at the first of these requests, some later one finds it down when it is
   * begun, behind the items before it, and one more item follows.
   */
  ghost predicate ItemDuringAttempt(requests: seq<Request>, items: seq<Item>, world: World) {
    exists k :: 1 <= k < Least(|requests|, |items|)
      && Reconnects(requests[k], world)
      && forall i :: 1 <= i < k ==> StaysUp(requests[i], world)
  }

  /**
   * What takes the timer away from a connection attempt: an item that comes while it is under way,
   * be it that it was before, or that an earlier item started it, and no item closes the session.
   */
  ghost predicate LosesTimer(link: Link, requests: seq<Request>, items: seq<Item>, world: World) {
    && (|| (link.Connecting? && requests != [] && items != [])
        || (link.Up? && ItemDuringAttempt(requests, items, world)))
    && NoneCloses(requests, items, world)
  }

  /** During an attempt without a timer items are resolved one by one, and only a callback ends it. */
  lemma {:induction false} UntimedStaysExactly(s: Session, items: seq<Item>, world: World)
    requires s.link == Connecting(false)
    ensures TakeAll(s, items, world).link == Connecting(false) <==> NoneCloses(s.outstanding, items, world)
    ensures TakeAll(s, items, world).link == Connecting(false) || TakeAll(s, items, world).link.Closed?
    decreases |items|
  {
    hide AnswerTo, Failures;
    if items != [] && s.outstanding != [] {
      var next := Take(s, items[0], world);
      if Closes(items[0], s.outstanding[0], world) {
        assert next.link.Closed?;
      } else {
        assert next.link == Connecting(false) && next.outstanding == s.outstanding[1..];
        UntimedStaysExactly(next, items[1..], world);
        RestCloses(s.outstanding, items, world);
      }
    } else if items != [] {
      UntimedStaysExactly(s, items[1..], world);
    }
  }

  lemma RestCloses(requests: seq<Request>, items: seq<Item>, world: World)
    requires requests != [] && items != []
    ensures NoneCloses(requests, items, world)
       <==> !Closes(items[0], requests[0], world) && NoneCloses(requests[1..], items[1..], world)
  {
    hide Closes;
    if NoneCloses(requests[1..], items[1..], world) && !Closes(items[0], requests[0], world) {
      forall i | 0 <= i < Least(|requests|, |items|)
        ensures !Closes(items[i], requests[i], world)
      {
        if i > 0 {
          assert requests[1..][i - 1] == requests[i] && items[1..][i - 1] == items[i];
        }
      }
    }
    if NoneCloses(requests, items, world) {
      forall i | 0 <= i < Least(|requests| - 1, |items| - 1)
        ensures !Closes(items[1..][i], requests[1..][i], world)
      {
        assert requests[1..][i] == requests[i + 1] && items[1..][i] == items[i + 1];
      }
    }
  }

  /** The next request begun keeps the link up, starts an attempt, or closes the session. */
  lemma RestDuringAttempt(requests: seq<Request>, items: seq<Item>, world: World)
    requires |requests| > 1 && items != []
    ensures ItemDuringAttempt(requests, items, world)
       <==> || (Reconnects(requests[1], world) && |items| > 1)
            || (StaysUp(requests[1], world) && ItemDuringAttempt(requests[1..], items[1..], world))
  {
    hide Reconnects, StaysUp;
    var rest, behind := requests[1..], items[1..];
    if k :| 1 <= k < Least(|requests|, |items|) && Reconnects(requests[k], world)
            && forall i :: 1 <= i < k ==> StaysUp(requests[i], world) {
      if k > 1 {
        assert Reconnects(rest[k - 1], world);
        forall i | 1 <= i < k - 1
          ensures StaysUp(rest[i], world)
        {
          assert StaysUp(requests[i + 1], world);
        }
      }
    }
    if StaysUp(requests[1], world) && ItemDuringAttempt(rest, behind, world) {
      var k :| 1 <= k < Least(|rest|, |behind|) && Reconnects(rest[k], world)
            && forall i :: 1 <= i < k ==> StaysUp(rest[i], world);
      assert Reconnects(requests[k + 1], world);
      forall i | 1 <= i < k + 1
        ensures StaysUp(requests[i], world)
      {
        if i > 1 {
          assert StaysUp(rest[i - 1], world);
        }
      }
      assert ItemDuringAttempt(requests, items, world);
    }
    if Reconnects(requests[1], world) && |items| > 1 {
      assert ItemDuringAttempt(requests, items, world);
    }
  }

  /** What one item does to a link that is up. */
  lemma TakeWhileUp(s: Session, item: Item, world: World)
    requires s.link.Up? && s.outstanding != []
    ensures var next := Take(s, item, world);
            if Closes(item, s.outstanding[0], world) then next.link.Closed?
            else if |s.outstanding| == 1 then next.link.Up? && next.outstanding == []
            else if StaysUp(s.outstanding[1], world) then next.link.Up? && next.outstanding == s.outstanding[1..]
            else if Reconnects(s.outstanding[1], world) then next.link == Connecting(true) && next.outstanding == s.outstanding[1..]
            else next.link.Closed?
  {
    hide AnswerTo, Failures, RequestBytes;
  }

  lemma {:induction false} IdleStaysUp(s: Session, items: seq<Item>, world: World)
    requires s.outstanding == []
    ensures TakeAll(s, items, world) == s
    decreases |items|
  {
    if items != [] && !s.link.Closed? {
      IdleStaysUp(s, items[1..], world);
    }
  }

  /** An attempt is left without its timer exactly in the case described, told from before the items. */
  lemma {:induction false} TimerLostExactly(s: Session, items: seq<Item>, world: World)
    requires s.link != Connecting(false) && (s.link.Down? ==> s.outstanding == [])
    requires s.link == Connecting(true) ==> s.outstanding != []
    ensures TakeAll(s, items, world).link == Connecting(false) <==> LosesTimer(s.link, s.outstanding, items, world)
    decreases |items|
  {
    hide Take, Closes, StaysUp, Reconnects, NoneCloses, ItemDuringAttempt;
    if items == [] || s.outstanding == [] {
      IdleOrEmpty(s, items, world);
    } else if s.link.Up? {
      var next := Take(s, items[0], world);
      TakeWhileUp(s, items[0], world);
      UpOrNot(s.outstanding, items, world);
      UpOrNot(next.outstanding, items[1..], world);
      RestCloses(s.outstanding, items, world);
      if next.link.Up? || next.link.Connecting? {
        TimerLostExactly(next, items[1..], world);
      }
      if |s.outstanding| > 1 {
        RestDuringAttempt(s.outstanding, items, world);
      }
    } else if s.link.Connecting? {
      TakeWhileConnecting(s, items[0], world);
      RestCloses(s.outstanding, items, world);
      var next := Take(s, items[0], world);
      if next.link == Connecting(false) {
        UntimedStaysExactly(next, items[1..], world);
      }
    }
  }

  lemma TakeWhileConnecting(s: Session, item: Item, world: World)
    requires s.link.Connecting? && s.outstanding != []
    ensures var next := Take(s, item, world);
            if Closes(item, s.outstanding[0], world) then next.link.Closed?
            else next.link == Connecting(false) && next.outstanding == s.outstanding[1..]
  {
    hide AnswerTo, Failures;
  }

  /** The link stays up, an attempt starts or the session closes, and only one of them. */
  lemma UpOrNot(requests: seq<Request>, items: seq<Item>, world: World)
    ensures |requests| > 1 && StaysUp(requests[1], world) ==> !Reconnects(requests[1], world)
    ensures |requests| <= 1 || |items| <= 1 ==> !ItemDuringAttempt(requests, items, world)
  {
  }

  lemma IdleOrEmpty(s: Session, items: seq<Item>, world: World)
    requires items == [] || s.outstanding == []
    ensures TakeAll(s, items, world) == s
    ensures !LosesTimer(s.link, s.outstanding, items, world) || s.link.Connecting?
    ensures s.link.Connecting? ==> !LosesTimer(s.link, s.outstanding, items, world)
  {
    hide Closes, StaysUp, Reconnects;
    if s.outstanding == [] {
      IdleStaysUp(s, items, world);
    }
  }

  /** The event takes the timer away from an attempt. */
  ghost predicate TakesTimer(s: Session, event: Event, world: World) {
    event.Data? && LosesTimer(s.link, s.outstanding, Deframe(s.buffer + event.bytes).items, world)
  }

  ghost predicate NeverTakesTimer(s: Session, events: seq<Event>, world: World)
    decreases |events|
  {
    events == [] || (!TakesTimer(s, events[0], world) && NeverTakesTimer(Step(s, events[0], world), events[1..], world))
  }

  /** After every event the outstanding requests have a timer, and only they have one. */
  ghost predicate TimersMatch(s: Session, events: seq<Event>, world: World)
    decreases |events|
  {
    && s.link != Connecting(false)
    && (Armed(s) <==> s.outstanding != [])
    && (events == [] || TimersMatch(Step(s, events[0], world), events[1..], world))
  }

  lemma StepTakesTimerExactly(s: Session, event: Event, world: World)
    requires Invariant(s) && s.link != Connecting(false)
    ensures Step(s, event, world).link == Connecting(false) <==> TakesTimer(s, event, world)
  {
    hide LosesTimer, Deframe, TakeAll;
    if event.Data? {
      if s.link.Closed? {
        ClosedLosesNothing(s.link, s.outstanding, Deframe(s.buffer + event.bytes).items, world);
      } else {
        var cut := Deframe(s.buffer + event.bytes);
        TimerLostExactly(s.(buffer := cut.rest), cut.items, world);
      }
    }
  }

  lemma ClosedLosesNothing(link: Link, requests: seq<Request>, items: seq<Item>, world: World)
    requires link.Closed?
    ensures !LosesTimer(link, requests, items, world)
  {
  }

  lemma {:induction false} TimersMatchExactly(s: Session, events: seq<Event>, world: World)
    requires Invariant(s) && s.link != Connecting(false)
    ensures TimersMatch(s, events, world) <==> NeverTakesTimer(s, events, world)
    decreases |events|
  {
    hide Step, TakesTimer;
    ArmedExactly(s);
    if events != [] {
      StepKeepsInvariant(s, events[0], world);
      StepTakesTimerExactly(s, events[0], world);
      if !TakesTimer(s, events[0], world) {
        TimersMatchExactly(Step(s, events[0], world), events[1..], world);
      }
    }
  }

  lemma ArmedExactly(s: Session)
    requires Invariant(s) && s.link != Connecting(false)
    ensures Armed(s) <==> s.outstanding != []
  {
  }

  /**
   * In every run each moment with outstanding requests has a timer pending, and no other has one,
   * exactly when no data event brings an item during a connection attempt, one under way or one
   * started by an item before it in the same event, without an item closing the session.
   */
  lemma NoRequestStranded(events: seq<Event>, world: World)
    ensures TimersMatch(Initial, events, world) <==> NeverTakesTimer(Initial, events, world)
  {
    TimersMatchExactly(Initial, events, world);
  }

  /** A data event over no attempt that completes at most one item takes no timer. */
  lemma OneItemTakesNoTimer(s: Session, bytes: seq<byte>, world: World)
    requires !s.link.Connecting? && |Deframe(s.buffer + bytes).items| <= 1
    ensures !TakesTimer(s, Data(bytes), world)
  {
    UpOrNot(s.outstanding, Deframe(s.buffer + bytes).items, world);
  }

  /**
   * The link breaks between two frames that arrive together: the third request has no timer of the
   * session's.
   */
  lemma SecondFrameStrandsRequest(unit: byte, world: World)
    requires world(0) == Fate(true, true, true, true, false)
    requires world(1) == Fate(false, true, true, true, false)
    ensures var frame := ExceptionFrame(1, unit, 4);
            var read := Enqueue(unit, 0, 1);
            Stranded(Run(Initial, [read, Connected, read, Data(frame + frame), read], world))
  {
    hide Deframe, TakeAll;
    var frame := ExceptionFrame(1, unit, 4);
    var read := Enqueue(unit, 0, 1);
    var data := Data(frame + frame);
    var s3 := TwoOutstanding(unit, world);
    TwoFrames(unit);
    ExceptionAnswersNothing(1, unit, 4, 1);
    SecondAnswerFails(frame, s3.outstanding[1]);
    ReceiveWholeFrames(s3, frame + frame, [Frame(frame), Frame(frame)], world);
    TwoFailuresLoseTimer(s3, Frame(frame), world);
    var s4 := Step(s3, data, world);
    RunAppend(Initial, [read, Connected, read], [data, read], world);
    RunCons(s3, data, [read], world);
    RunCons(s4, read, [], world);
    assert [read, Connected, read, data, read] == [read, Connected, read] + [data, read];
    assert [data, read] == [data] + [read];
    assert [read] == [read] + [];
  }

  lemma TwoOutstanding(unit: byte, world: World) returns (s: Session)
    requires world(0) == Fate(true, true, true, true, false)
    ensures var read := Enqueue(unit, 0, 1); s == Run(Initial, [read, Connected, read], world)
    ensures s.link.Up? && s.buffer == []
    ensures s.outstanding == [Request(0, unit, 0, 1), Request(1, unit, 0, 1)]
  {
    var read := Enqueue(unit, 0, 1);
    var s1 := Step(Initial, read, world);
    var s2 := Step(s1, Connected, world);
    s := Step(s2, read, world);
    RunCons(Initial, read, [Connected, read], world);
    RunCons(s1, Connected, [read], world);
    RunCons(s2, read, [], world);
    assert [read, Connected, read] == [read] + [Connected, read];
    assert [Connected, read] == [Connected] + [read];
    assert [read] == [read] + [];
  }

  lemma ReceiveWholeFrames(s: Session, bytes: seq<byte>, items: seq<Item>, world: World)
    requires !s.link.Closed? && s.buffer == [] && Deframe(bytes) == Cut(items, [])
    ensures Receive(s, bytes, world) == TakeAll(s, items, world)
  {
    assert s.buffer + bytes == bytes;
    assert s.(buffer := []) == s;
  }

  lemma TwoFailuresLoseTimer(s: Session, item: Item, world: World)
    requires s.link.Up?
    requires |s.outstanding| == 2 && s.outstanding[0].id == 0 && s.outstanding[1].id == 1
    requires item.Frame? && AnswerTo(item.bytes, s.outstanding[0]) == Failed
    requires AnswerTo(item.bytes, s.outstanding[1]) == Failed
    requires world(0) == Fate(true, true, true, true, false)
    requires world(1) == Fate(false, true, true, true, false)
    ensures var after := TakeAll(s, [item, item], world);
            after.link == Connecting(false) && after.outstanding == []
  {
    var first := Resolve(s, Failed, world);
    assert first == Take(s, item, world);
    assert first.link == Connecting(true) && first.outstanding == [s.outstanding[1]];
    var second := Resolve(first, Failed, world);
    assert second == Take(first, item, world);
    TakeTwo(s, item, item, world);
  }

  /** The second request carries transaction 2, so transaction 1 cannot answer it. */
  lemma SecondAnswerFails(frame: seq<byte>, request: Request)
    requires 2 <= |frame| && frame[1] == 1 && request.id == 1
    ensures AnswerTo(frame, request) == Failed
  {
  }

  lemma TakeTwo(s: Session, first: Item, second: Item, world: World)
    ensures TakeAll(s, [first, second], world) ==
            if s.link.Closed? then s
            else var next := Take(s, first, world); if next.link.Closed? then next else Take(next, second, world)
  {
    TakeAllAppend(s, [first], [second], world);
    assert [first] + [second] == [first, second];
    TakeOne(s, first, world);
    TakeOne(TakeAll(s, [first], world), second, world);
  }

  lemma TakeOne(s: Session, item: Item, world: World)
    ensures TakeAll(s, [item], world) == if s.link.Closed? then s else Take(s, item, world)
  {
  }

  lemma TwoFrames(unit: byte)
    ensures var frame := ExceptionFrame(1, unit, 4);
            Deframe(frame + frame) == Cut([Frame(frame), Frame(frame)], [])
  {
    var frame := ExceptionFrame(1, unit, 4);
    assert (frame + frame)[9..] == frame && (frame + frame)[..9] == frame;
    assert frame[9..] == [] && frame[..9] == frame;
    assert Deframe([]) == Cut([], []);
    assert Deframe(frame) == Cut([Frame(frame)], []);
  }

  lemma RunCons(s: Session, event: Event, events: seq<Event>, world: World)
    ensures Run(s, [event] + events, world) == Run(Step(s, event, world), events, world)
  {
  }

  // The way the bytes are cut into events does not matter

  lemma TakeIsInert(s: Session, rest: seq<byte>, item: Item, world: World)
    requires !s.link.Closed?
    ensures var after := Take(s, item, world);
            && Take(s.(buffer := rest), item, world) == (if after.link.Closed? then after else after.(buffer := rest))
            && (!after.link.Closed? ==> after.buffer == s.buffer)
  {
    hide Failures, Answer, RequestBytes;
  }

  /** The buffer plays no part until the next bytes arrive. */
  lemma {:induction false} BufferIsInert(s: Session, rest: seq<byte>, items: seq<Item>, world: World)
    requires !s.link.Closed?
    ensures var after := TakeAll(s, items, world);
            TakeAll(s.(buffer := rest), items, world) == if after.link.Closed? then after else after.(buffer := rest)
    ensures !TakeAll(s, items, world).link.Closed? ==> TakeAll(s, items, world).buffer == s.buffer
    decreases |items|
  {
    if items != [] {
      hide Take;
      var next := Take(s, items[0], world);
      TakeIsInert(s, rest, items[0], world);
      if !next.link.Closed? {
        BufferIsInert(next, rest, items[1..], world);
      }
    }
  }

  lemma {:induction false} TakeAllAppend(s: Session, first: seq<Item>, second: seq<Item>, world: World)
    ensures TakeAll(s, first + second, world) == TakeAll(TakeAll(s, first, world), second, world)
    decreases |first|
  {
    if first == [] {
      assert first + second == second;
    } else if !s.link.Closed? {
      assert (first + second)[1..] == first[1..] + second;
      TakeAllAppend(Take(s, first[0], world), first[1..], second, world);
    }
  }

  lemma ReceiveAppend(s: Session, front: seq<byte>, back: seq<byte>, world: World)
    requires !DropsBytes(s.buffer + front + back)
    ensures Receive(Receive(s, front, world), back, world) == Receive(s, front + back, world)
  {
    if !s.link.Closed? {
      var first := Deframe(s.buffer + front);
      var second := Deframe(first.rest + back);
      assert s.buffer + front + back == s.buffer + (front + back);
      DeframeAppend(s.buffer + front, back);
      TwoChunks(s.buffer + front, back);
      TakeAllAppend(s.(buffer := second.rest), first.items, second.items, world);
      BufferIsInert(s.(buffer := first.rest), second.rest, first.items, world);
    }
  }

  function DataEvents(chunks: seq<seq<byte>>): seq<Event> {
    seq(|chunks|, i requires 0 <= i < |chunks| => Data(chunks[i]))
  }

  /**
   * A byte stream that loses nothing to a bad length leaves the same session behind, buffer and
   * all, in whatever chunks it arrives.
   */
  lemma {:induction false} ChunksDoNotMatter(s: Session, chunks: seq<seq<byte>>, world: World)
    requires Invariant(s)
    requires !DropsBytes(s.buffer + Concat(chunks))
    ensures Run(s, DataEvents(chunks), world) == Receive(s, Concat(chunks), world)
    decreases |chunks|
  {
    if chunks == [] {
      assert s.buffer + [] == s.buffer;
    } else {
      var rest := Concat(chunks[1..]);
      var next := Step(s, Data(chunks[0]), world);
      assert DataEvents(chunks)[1..] == DataEvents(chunks[1..]);
      assert s.buffer + Concat(chunks) == s.buffer + chunks[0] + rest;
      StepKeepsInvariant(s, Data(chunks[0]), world);
      ReceiveAppend(s, chunks[0], rest, world);
      if next.link.Closed? {
        ClosedIgnoresData(next, chunks[1..], world);
      } else {
        DeframeAppend(s.buffer + chunks[0], rest);
        BufferIsInert(s.(buffer := Deframe(s.buffer + chunks[0]).rest), [], Deframe(s.buffer + chunks[0]).items, world);
        ChunksDoNotMatter(next, chunks[1..], world);
      }
    }
  }

  lemma {:induction false} ClosedIgnoresData(s: Session, chunks: seq<seq<byte>>, world: World)
    requires s.link.Closed?
    ensures Run(s, DataEvents(chunks), world) == s
    decreases |chunks|
  {
    if chunks != [] {
      assert DataEvents(chunks)[1..] == DataEvents(chunks[1..]);
      ClosedIgnoresData(s, chunks[1..], world);
    }
  }

  lemma ReceiveJoined(s: Session, bytes: seq<byte>, world: World)
    requires !s.link.Closed?
    ensures Receive(s, bytes, world) == Receive(s.(buffer := []), s.buffer + bytes, world)
  {
    assert [] + (s.buffer + bytes) == s.buffer + bytes;
  }

  // The receive loop's step: one item off the front of the buffer, then the rest of it

  lemma ReceiveIncomplete(s: Session, buffer: seq<byte>, world: World)
    requires !s.link.Closed?
    requires HeaderComplete(buffer) ==> LengthAllowed(LengthField(buffer)) && |buffer| < 6 + LengthField(buffer)
    ensures Receive(s.(buffer := []), buffer, world) == s.(buffer := buffer)
  {
  }

  lemma ReceiveBadLength(s: Session, buffer: seq<byte>, world: World)
    requires !s.link.Closed? && HeaderComplete(buffer) && !LengthAllowed(LengthField(buffer))
    ensures Receive(s.(buffer := []), buffer, world) == Take(s.(buffer := []), BadLength, world)
  {
  }

  lemma ReceiveFrame(s: Session, buffer: seq<byte>, world: World)
    requires !s.link.Closed? && HeaderComplete(buffer) && LengthAllowed(LengthField(buffer))
    requires |buffer| >= 6 + LengthField(buffer)
    ensures var size := 6 + LengthField(buffer);
            var next := Take(s.(buffer := buffer[size..]), Frame(buffer[..size]), world);
            Receive(s.(buffer := []), buffer, world) ==
            if next.link.Closed? then next else Receive(next.(buffer := []), buffer[size..], world)
  {
    var size := 6 + LengthField(buffer);
    var cut := Deframe(buffer[size..]);
    assert [] + buffer == buffer && [] + buffer[size..] == buffer[size..];
    assert Deframe(buffer).items[1..] == cut.items;
    TakeBeside(s, Frame(buffer[..size]), buffer[size..], cut.rest, world);
    var items := Deframe(buffer).items;
    assert Receive(s.(buffer := []), buffer, world)
        == TakeAll(Take(s.(buffer := cut.rest), items[0], world), items[1..], world);
  }

  lemma TakeBeside(s: Session, item: Item, buffer: seq<byte>, other: seq<byte>, world: World)
    requires !s.link.Closed?
    ensures var next := Take(s.(buffer := buffer), item, world);
            Take(s.(buffer := other), item, world) == if next.link.Closed? then next else next.(buffer := other)
  {
    TakeOne(s.(buffer := buffer), item, world);
    TakeOne(s.(buffer := other), item, world);
    BufferIsInert(s.(buffer := buffer), other, [item], world);
  }
}
