/**
 * The timer: discovery and thing ticks at multiples of their configured intervals since the epoch,
 * with one schedule for both when the intervals are equal.
 */
module TimerSpec {
  import opened Arithmetic
  import opened Bytes

  // The next tick

  /** The remainder that goes with a quotient truncated toward zero. */
  function Remainder(a: int, b: int): int
    requires b > 0
  {
    if a >= 0 then a % b else -((-a) % b)
  }

  /** Times are in seconds since the epoch; the clock may be finer than that. */
  function NextTick(time: real, interval: int): int
    requires interval > 0
  {
    var elapsed := time.Floor;
    var remainder := Remainder(elapsed, interval);
    elapsed + if remainder == 0 then interval else interval - remainder
  }

  ghost predicate IsMultiple(tick: int, interval: int) {
    exists k: int :: tick == k * interval
  }

  /** The least multiple of the interval strictly after a time. */
  ghost predicate IsNextMultiple(tick: int, time: real, interval: int) {
    && IsMultiple(tick, interval)
    && tick as real > time
    && forall k: int :: (k * interval) as real > time ==> tick <= k * interval
  }

  lemma MultiplesOfInterval(quotient: int, k: int, interval: int)
    requires interval > 0 && k * interval > quotient * interval
    ensures k * interval >= (quotient + 1) * interval
  {
    if k <= quotient {
      ProductsOrdered(k, quotient, interval);
    } else {
      ProductsOrdered(quotient + 1, k, interval);
    }
  }

  /** The next multiple after a whole second is one interval behind the multiple at or before it. */
  lemma NextMultipleIs(elapsed: int, time: real, interval: int, tick: int)
    requires interval > 0 && time.Floor == elapsed
    ensures IsNextMultiple(tick, time, interval) <==> tick == (elapsed / interval + 1) * interval
  {
    var quotient := elapsed / interval;
    var next := (quotient + 1) * interval;
    assert elapsed == quotient * interval + elapsed % interval;
    assert next == quotient * interval + interval;
    assert next > elapsed;
    forall k: int | (k * interval) as real > time
      ensures next <= k * interval
    {
      assert k * interval > elapsed >= quotient * interval;
      MultiplesOfInterval(quotient, k, interval);
    }
    assert IsNextMultiple(next, time, interval);
    if IsNextMultiple(tick, time, interval) {
      var k: int :| tick == k * interval;
      assert (k * interval) as real > time;
      assert ((quotient + 1) * interval) as real > time;
    }
  }

  /** The computed tick is the next multiple exactly after the epoch, or on a multiple before it. */
  lemma NextTickIsNextMultiple(time: real, interval: int)
    requires interval > 0
    ensures IsNextMultiple(NextTick(time, interval), time, interval)
       <==> time.Floor >= 0 || Remainder(time.Floor, interval) == 0
  {
    var elapsed := time.Floor;
    var tick := NextTick(time, interval);
    NextMultipleIs(elapsed, time, interval, tick);
    if elapsed >= 0 {
      assert elapsed == (elapsed / interval) * interval + elapsed % interval;
      assert (elapsed / interval + 1) * interval == (elapsed / interval) * interval + interval;
    } else {
      TruncatedBefore(elapsed, interval);
      assert (elapsed / interval + 1) * interval == (elapsed / interval) * interval + interval;
    }
  }

  /** Before the epoch truncation rounds up, to a multiple at or behind the time. */
  lemma TruncatedBefore(elapsed: int, interval: int)
    requires interval > 0 && elapsed < 0
    ensures var remainder := Remainder(elapsed, interval);
            elapsed - remainder == if remainder == 0 then (elapsed / interval) * interval
                                   else (elapsed / interval) * interval + interval
  {
    var quotient, rest := (-elapsed) / interval, (-elapsed) % interval;
    assert -elapsed == quotient * interval + rest;
    assert elapsed == (elapsed / interval) * interval + elapsed % interval;
    if rest == 0 {
      DivisionIs(elapsed, interval, -quotient, 0);
    } else {
      assert elapsed == (-quotient - 1) * interval + (interval - rest) by {
        assert (-quotient - 1) * interval == -(quotient * interval) - interval;
      }
      DivisionIs(elapsed, interval, -quotient - 1, interval - rest);
      assert (-quotient - 1) * interval == -(quotient * interval) - interval;
    }
  }

  /** One second before the epoch the tick of a two-second interval is set for second 2, not 0. */
  lemma LateBeforeEpoch()
    ensures NextTick(-1.0, 2) == 2 && IsNextMultiple(0, -1.0, 2)
  {
    NextMultipleIs(-1, -1.0, 2, 0);
  }

  /** The times a tick is set for: those of the interval in front of it, before the epoch of the one in front of that. */
  predicate InWindow(time: real, interval: int, tick: int) {
    if time.Floor >= 0 then tick - interval <= time.Floor < tick else tick - 2 * interval < time.Floor <= tick - interval
  }

  lemma MultiplesApart(l: int, k: int, interval: int)
    requires interval > 0
    ensures l < k ==> l * interval + interval <= k * interval
    ensures l * interval > 0 ==> l * interval >= interval
  {
    if l < k {
      ProductsOrdered(l + 1, k, interval);
    }
    if l > 0 {
      ProductsOrdered(1, l, interval);
    } else {
      ProductsOrdered(l, 0, interval);
    }
  }

  lemma SameProduct(a: int, b: int, interval: int)
    requires interval > 0
    ensures a * interval == b * interval <==> a == b
  {
    MultiplesApart(a, b, interval);
    MultiplesApart(b, a, interval);
  }

  lemma QuotientAt(elapsed: int, interval: int, k: int)
    requires interval > 0
    ensures elapsed / interval == k <==> k * interval <= elapsed < k * interval + interval
    ensures elapsed / interval == k && elapsed % interval == 0 <==> elapsed == k * interval
  {
    assert elapsed == (elapsed / interval) * interval + elapsed % interval;
    if k * interval <= elapsed < k * interval + interval {
      DivisionIs(elapsed, interval, k, elapsed - k * interval);
    }
  }

  /** A multiple is the tick of exactly the times in its window. */
  lemma TimesOfTick(time: real, interval: int, k: int)
    requires interval > 0
    ensures NextTick(time, interval) == k * interval <==> InWindow(time, interval, k * interval)
  {
    var elapsed := time.Floor;
    assert elapsed == (elapsed / interval) * interval + elapsed % interval;
    assert (k - 1) * interval == k * interval - interval;
    assert (k - 2) * interval == k * interval - 2 * interval;
    QuotientAt(elapsed, interval, k - 1);
    QuotientAt(elapsed, interval, k - 2);
    var whole := elapsed / interval;
    if elapsed >= 0 {
      assert NextTick(time, interval) == whole * interval + interval;
      SameProduct(whole, k - 1, interval);
    } else {
      TruncatedBefore(elapsed, interval);
      SameProduct(whole, k - 1, interval);
      SameProduct(whole, k - 2, interval);
    }
  }

  /** Every tick is a multiple of its interval. */
  lemma TickIsMultiple(time: real, interval: int)
    requires interval > 0
    ensures IsMultiple(NextTick(time, interval), interval)
  {
    var elapsed := time.Floor;
    assert elapsed == (elapsed / interval) * interval + elapsed % interval;
    if elapsed >= 0 {
      assert NextTick(time, interval) == (elapsed / interval + 1) * interval;
    } else {
      TruncatedBefore(elapsed, interval);
      assert (elapsed / interval + 1) * interval == (elapsed / interval) * interval + interval;
      assert (elapsed / interval + 2) * interval == (elapsed / interval) * interval + 2 * interval;
    }
  }

  lemma WindowsRise(earlier: real, later: real, interval: int, k: int, l: int)
    requires interval > 0 && earlier <= later
    requires InWindow(earlier, interval, k * interval) && InWindow(later, interval, l * interval)
    ensures k * interval <= l * interval
  {
    MultiplesApart(l, k, interval);
    if k <= l {
      ProductsOrdered(k, l, interval);
    }
  }

  /**
   * Later times have no earlier ticks, and another tick exactly when they are none the earlier tick
   * is set for; from the epoch on, exactly when that tick has been reached.
   */
  lemma LaterTimeLaterTick(earlier: real, later: real, interval: int)
    requires interval > 0 && earlier <= later
    ensures NextTick(earlier, interval) <= NextTick(later, interval)
    ensures NextTick(earlier, interval) != NextTick(later, interval) <==> !InWindow(later, interval, NextTick(earlier, interval))
    ensures earlier >= 0.0 ==>
              (NextTick(earlier, interval) != NextTick(later, interval) <==> NextTick(earlier, interval) as real <= later)
  {
    var first, second := NextTick(earlier, interval), NextTick(later, interval);
    hide NextTick;
    TickIsMultiple(earlier, interval);
    TickIsMultiple(later, interval);
    var k: int :| first == k * interval;
    var l: int :| second == l * interval;
    TimesOfTick(earlier, interval, k);
    TimesOfTick(later, interval, k);
    TimesOfTick(later, interval, l);
    WindowsRise(earlier, later, interval, k, l);
  }

  // The schedulers

  type Interval = n: int | n > 0 witness 1

  datatype Channel = Discovery | Things

  /** A pending timeout of a scheduler, set at time `since`. */
  datatype Timeout = Timeout(scheduler: nat, interval: Interval, since: real)

  /** A tick at second `at`, from a timeout set at time `since`. */
  datatype Tick = Tick(channel: Channel, scheduler: nat, interval: Interval, since: real, at: int)

  datatype Ending = Running | Completed | Errored

  /**
   * Schedulers are numbered as they are made, and `current` says which one serves an interval;
   * timeouts are numbered as they are set, and `pending` are those that have not fired.
   */
  datatype State = State(
    discovery: Option<Interval>,
    things: Option<Interval>,
    current: map<Interval, nat>,
    made: nat,
    pending: map<nat, Timeout>,
    timers: nat,
    ending: Ending,
    clock: real,
    ticks: seq<Tick>)

  const Initial := State(None, None, map[], 0, map[], 0, Running, 0.0, [])

  datatype Event =
    | SetInterval(channel: Channel, interval: int, now: real)
    | Fire(timer: nat, now: real)
    | Fail
    | Stop

  predicate Uses(s: State, interval: Interval) {
    s.discovery == Some(interval) || s.things == Some(interval)
  }

  predicate IsCurrent(s: State, interval: Interval, scheduler: nat) {
    s.ending.Running? && interval in s.current && s.current[interval] == scheduler
  }

  function Configured(s: State, channel: Channel): Option<Interval> {
    match channel
    case Discovery => s.discovery
    case Things => s.things
  }

  function Configure(s: State, channel: Channel, interval: Interval): State {
    match channel
    case Discovery => s.(discovery := Some(interval))
    case Things => s.(things := Some(interval))
  }

  function EndWith(s: State, ending: Ending): State {
    if s.ending.Running? then s.(ending := ending, current := map[]) else s
  }

  /** A schedule that nobody uses any more is dropped. */
  function Drop(s: State, previous: Option<Interval>): State {
    if previous.Some? && !Uses(s, previous.value) then s.(current := s.current - {previous.value}) else s
  }

  function Schedule(s: State, scheduler: nat, interval: Interval): State {
    s.(pending := s.pending[s.timers := Timeout(scheduler, interval, s.clock)], timers := s.timers + 1)
  }

  /** A schedule that is missing is made. */
  function Serve(s: State, interval: Interval): State {
    if interval in s.current then s
    else Schedule(s.(current := s.current[interval := s.made], made := s.made + 1), s.made, interval)
  }

  function TicksOf(s: State, timeout: Timeout): seq<Tick> {
    var at := NextTick(timeout.since, timeout.interval);
    (if s.discovery == Some(timeout.interval) then [Tick(Discovery, timeout.scheduler, timeout.interval, timeout.since, at)] else [])
    + (if s.things == Some(timeout.interval) then [Tick(Things, timeout.scheduler, timeout.interval, timeout.since, at)] else [])
  }

  /** A current scheduler ticks and sets its next timeout. */
  function Emit(s: State, timeout: Timeout): State {
    Schedule(s.(ticks := s.ticks + TicksOf(s, timeout)), timeout.scheduler, timeout.interval)
  }

  function Step(s: State, event: Event): State {
    match event
    case SetInterval(channel, interval, now) =>
      if !s.ending.Running? then s
      else if interval <= 0 then EndWith(s, Errored)
      else Serve(Drop(Configure(s.(clock := now), channel, interval), Configured(s, channel)), interval)
    case Fire(timer, now) =>
      if timer !in s.pending then s
      else
        var timeout := s.pending[timer];
        var fired := s.(pending := s.pending - {timer}, clock := now);
        if IsCurrent(s, timeout.interval, timeout.scheduler) then Emit(fired, timeout) else fired
    case Fail => EndWith(s, Errored)
    case Stop => EndWith(s, Completed)
  }

  function Run(s: State, events: seq<Event>): State
    decreases |events|
  {
    if events == [] then s else Run(Step(s, events[0]), events[1..])
  }

  // What every run keeps

  /** The intervals served are exactly those configured; none once the timer has ended. */
  ghost predicate ServesConfigured(s: State) {
    if s.ending.Running? then forall interval :: interval in s.current <==> Uses(s, interval) else s.current == map[]
  }

  /** Every current scheduler has a timeout pending. */
  ghost predicate EachScheduled(s: State) {
    forall interval :: interval in s.current ==>
      exists t :: t in s.pending && s.pending[t].interval == interval && s.pending[t].scheduler == s.current[interval]
  }

  /** No scheduler has two timeouts pending; timers and schedulers are numbered once. */
  ghost predicate Numbered(s: State) {
    && (forall t, u :: t in s.pending && u in s.pending && s.pending[t].scheduler == s.pending[u].scheduler ==> t == u)
    && (forall t :: t in s.pending ==> t < s.timers && s.pending[t].scheduler < s.made)
    && (forall interval :: interval in s.current ==> s.current[interval] < s.made)
    && (forall i, j :: i in s.current && j in s.current && s.current[i] == s.current[j] ==> i == j)
  }

  ghost predicate Invariant(s: State) {
    ServesConfigured(s) && EachScheduled(s) && Numbered(s)
  }

  function TickAt(timeout: Timeout): int {
    NextTick(timeout.since, timeout.interval)
  }

  lemma EndKeepsInvariant(s: State, ending: Ending)
    requires Invariant(s) && !ending.Running?
    ensures Invariant(EndWith(s, ending))
  {
  }

  /** What holds while an interval is being set. */
  ghost predicate Setting(s: State) {
    s.ending.Running? && EachScheduled(s) && Numbered(s)
  }

  lemma DropKeepsScheduled(s: State, previous: Option<Interval>)
    requires EachScheduled(s)
    ensures EachScheduled(Drop(s, previous))
  {
  }

  lemma DropKeepsNumbered(s: State, previous: Option<Interval>)
    requires Numbered(s)
    ensures Numbered(Drop(s, previous))
  {
  }

  lemma DropKeeps(s: State, previous: Option<Interval>, interval: Interval)
    requires Setting(s) && Uses(s, interval)
    requires forall i :: i in s.current ==> Uses(s, i) || Some(i) == previous
    requires forall i :: Uses(s, i) ==> i in s.current || i == interval
    ensures var after := Drop(s, previous);
            && Setting(after) && Uses(after, interval)
            && (forall i :: i in after.current ==> Uses(after, i))
            && (forall i :: Uses(after, i) ==> i in after.current || i == interval)
  {
    hide EachScheduled, Numbered;
    DropKeepsScheduled(s, previous);
    DropKeepsNumbered(s, previous);
  }

  lemma ServeKeepsScheduled(s: State, interval: Interval)
    requires EachScheduled(s) && Numbered(s)
    ensures EachScheduled(Serve(s, interval))
  {
    if interval !in s.current {
      var after := Serve(s, interval);
      forall i | i in after.current
        ensures exists t :: t in after.pending && after.pending[t].interval == i && after.pending[t].scheduler == after.current[i]
      {
        if i == interval {
          assert after.pending[s.timers].interval == i;
        } else {
          var t :| t in s.pending && s.pending[t].interval == i && s.pending[t].scheduler == s.current[i];
          assert t in after.pending && after.pending[t] == s.pending[t];
        }
      }
    }
  }

  lemma ServeKeepsNumbered(s: State, interval: Interval)
    requires Numbered(s)
    ensures Numbered(Serve(s, interval))
  {
  }

  lemma ServeKeeps(s: State, interval: Interval)
    requires Setting(s) && Uses(s, interval)
    requires forall i :: i in s.current ==> Uses(s, i)
    requires forall i :: Uses(s, i) ==> i in s.current || i == interval
    ensures Invariant(Serve(s, interval))
  {
    hide EachScheduled, Numbered;
    ServeKeepsScheduled(s, interval);
    ServeKeepsNumbered(s, interval);
  }

  lemma SetIntervalKeepsInvariant(s: State, channel: Channel, interval: Interval, now: real)
    requires Invariant(s) && s.ending.Running?
    ensures Invariant(Step(s, SetInterval(channel, interval, now)))
  {
    hide Serve, Drop, NextTick;
    var configured := Configure(s.(clock := now), channel, interval);
    DropKeeps(configured, Configured(s, channel), interval);
    ServeKeeps(Drop(configured, Configured(s, channel)), interval);
  }

  /** The state just after a timeout has left, before its scheduler acts. */
  lemma FiredKeeps(s: State, timer: nat, now: real)
    requires Invariant(s) && timer in s.pending
    ensures var fired := s.(pending := s.pending - {timer}, clock := now);
            && ServesConfigured(fired) && Numbered(fired)
            && (forall t :: t in fired.pending ==> fired.pending[t].scheduler != s.pending[timer].scheduler)
            && (!IsCurrent(s, s.pending[timer].interval, s.pending[timer].scheduler) ==> EachScheduled(fired))
  {
    hide NextTick;
    var fired := s.(pending := s.pending - {timer}, clock := now);
    if !IsCurrent(s, s.pending[timer].interval, s.pending[timer].scheduler) {
      forall interval | interval in fired.current
        ensures exists t :: t in fired.pending && fired.pending[t].interval == interval
                            && fired.pending[t].scheduler == fired.current[interval]
      {
        var t :| t in s.pending && s.pending[t].interval == interval && s.pending[t].scheduler == s.current[interval];
        assert t != timer;
        assert t in fired.pending && fired.pending[t] == s.pending[t];
      }
    }
  }

  lemma EmitKeepsScheduled(s: State, timer: nat, now: real)
    requires EachScheduled(s) && Numbered(s) && timer in s.pending
    requires IsCurrent(s, s.pending[timer].interval, s.pending[timer].scheduler)
    ensures EachScheduled(Emit(s.(pending := s.pending - {timer}, clock := now), s.pending[timer]))
  {
    hide TicksOf;
    var timeout := s.pending[timer];
    var after := Emit(s.(pending := s.pending - {timer}, clock := now), timeout);
    forall i | i in after.current
      ensures exists t :: t in after.pending && after.pending[t].interval == i && after.pending[t].scheduler == after.current[i]
    {
      if i == timeout.interval {
        assert after.pending[s.timers].interval == i;
      } else {
        var t :| t in s.pending && s.pending[t].interval == i && s.pending[t].scheduler == s.current[i];
        assert t != timer && t in after.pending && after.pending[t] == s.pending[t];
      }
    }
  }

  lemma EmitKeepsNumbered(s: State, timer: nat, now: real)
    requires Numbered(s) && timer in s.pending
    ensures Numbered(Emit(s.(pending := s.pending - {timer}, clock := now), s.pending[timer]))
  {
    hide TicksOf;
  }

  lemma EmitKeepsInvariant(s: State, timer: nat, now: real)
    requires Invariant(s) && timer in s.pending
    requires IsCurrent(s, s.pending[timer].interval, s.pending[timer].scheduler)
    ensures Invariant(Emit(s.(pending := s.pending - {timer}, clock := now), s.pending[timer]))
  {
    hide EachScheduled, Numbered, TicksOf;
    EmitKeepsScheduled(s, timer, now);
    EmitKeepsNumbered(s, timer, now);
  }

  lemma StepKeepsInvariant(s: State, event: Event)
    requires Invariant(s)
    ensures Invariant(Step(s, event))
  {
    hide EachScheduled, Numbered, Serve, Drop, Emit;
    match event
    case SetInterval(channel, interval, now) =>
      if s.ending.Running? {
        if interval <= 0 {
          EndKeepsInvariant(s, Errored);
        } else {
          SetIntervalKeepsInvariant(s, channel, interval, now);
        }
      }
    case Fire(timer, now) =>
      if timer in s.pending {
        FiredKeeps(s, timer, now);
        if IsCurrent(s, s.pending[timer].interval, s.pending[timer].scheduler) {
          EmitKeepsInvariant(s, timer, now);
        }
      }
    case Fail =>
      EndKeepsInvariant(s, Errored);
    case Stop =>
      EndKeepsInvariant(s, Completed);
  }

  lemma {:induction false} RunKeepsInvariant(s: State, events: seq<Event>)
    requires Invariant(s)
    ensures Invariant(Run(s, events))
    decreases |events|
  {
    if events != [] {
      StepKeepsInvariant(s, events[0]);
      RunKeepsInvariant(Step(s, events[0]), events[1..]);
    }
  }

  lemma Reachable(events: seq<Event>)
    ensures Invariant(Run(Initial, events))
  {
    RunKeepsInvariant(Initial, events);
  }

  /** In every run the schedulers' intervals are those configured, each with exactly one timeout. */
  lemma SchedulesAreShared(events: seq<Event>, interval: Interval)
    requires Run(Initial, events).ending.Running?
    ensures var s := Run(Initial, events);
            && (interval in s.current <==> s.discovery == Some(interval) || s.things == Some(interval))
            && (interval in s.current ==>
                  exists t :: t in s.pending && s.pending[t].scheduler == s.current[interval]
                              && forall u :: u in s.pending && s.pending[u].scheduler == s.current[interval] ==> u == t)
  {
    Reachable(events);
    var s := Run(Initial, events);
    assert Invariant(s);
    if interval in s.current {
      var t :| t in s.pending && s.pending[t].interval == interval && s.pending[t].scheduler == s.current[interval];
    }
  }

  /** A scheduler that has been replaced, or whose timer has ended. */
  predicate Replaced(s: State, scheduler: nat) {
    scheduler < s.made && scheduler !in s.current.Values
  }

  lemma ReplacedStep(s: State, event: Event, scheduler: nat)
    requires Replaced(s, scheduler)
    ensures Replaced(Step(s, event), scheduler)
    ensures s.ticks <= Step(s, event).ticks
    ensures forall i :: |s.ticks| <= i < |Step(s, event).ticks| ==> Step(s, event).ticks[i].scheduler != scheduler
  {
    hide NextTick;
  }

  /** A replaced scheduler never ticks again, not even when its interval comes back. */
  lemma {:induction false} ReplacedIsSilent(s: State, events: seq<Event>, scheduler: nat)
    requires Replaced(s, scheduler)
    ensures var after := Run(s, events);
            && Replaced(after, scheduler)
            && s.ticks <= after.ticks
            && forall i :: |s.ticks| <= i < |after.ticks| ==> after.ticks[i].scheduler != scheduler
    decreases |events|
  {
    hide Step, Replaced;
    if events != [] {
      ReplacedStep(s, events[0], scheduler);
      ReplacedIsSilent(Step(s, events[0]), events[1..], scheduler);
    }
  }

  /**
   * When a timeout fires in any run, exactly the channels configured for its interval get its
   * tick; at least one does when its scheduler is current, and none when it is not.
   */
  lemma TickReachesItsChannels(events: seq<Event>, timer: nat, now: real, channel: Channel)
    requires timer in Run(Initial, events).pending
    ensures var s := Run(Initial, events);
            var timeout := s.pending[timer];
            var tick := Tick(channel, timeout.scheduler, timeout.interval, timeout.since, TickAt(timeout));
            var ticks := Step(s, Fire(timer, now)).ticks;
            if IsCurrent(s, timeout.interval, timeout.scheduler)
            then |s.ticks| < |ticks|
                 && (tick in ticks[|s.ticks|..] <==> Configured(s, channel) == Some(timeout.interval))
            else ticks == s.ticks
  {
    hide NextTick, EachScheduled, Numbered;
    Reachable(events);
    var s := Run(Initial, events);
    var timeout := s.pending[timer];
    if IsCurrent(s, timeout.interval, timeout.scheduler) {
      assert Uses(s, timeout.interval);
      assert Step(s, Fire(timer, now)).ticks[|s.ticks|..] == TicksOf(s, timeout);
    }
  }

  /** Once ended a timer neither ticks nor ends again. */
  lemma {:induction false} EndIsFinal(s: State, events: seq<Event>)
    requires !s.ending.Running?
    ensures Run(s, events).ticks == s.ticks && Run(s, events).ending == s.ending
    decreases |events|
  {
    if events != [] {
      EndIsFinal(Step(s, events[0]), events[1..]);
    }
  }

  /** How a timer ends: a stop completes it, an error or an interval that is not positive fails it. */
  function EndingOf(event: Event): Ending {
    match event
    case Stop => Completed
    case Fail => Errored
    case SetInterval(_, interval, _) => if interval <= 0 then Errored else Running
    case Fire(_, _) => Running
  }

  function FirstEnding(events: seq<Event>): Ending {
    if events == [] then Running
    else if EndingOf(events[0]).Running? then FirstEnding(events[1..])
    else EndingOf(events[0])
  }

  /** In every run the first event that ends the timer decides how. */
  lemma {:induction false} FirstEndingDecides(s: State, events: seq<Event>)
    requires s.ending.Running?
    ensures Run(s, events).ending == FirstEnding(events)
    decreases |events|
  {
    if events != [] {
      var next := Step(s, events[0]);
      StepEnds(s, events[0]);
      hide Step;
      if next.ending.Running? {
        FirstEndingDecides(next, events[1..]);
      } else {
        EndIsFinal(next, events[1..]);
      }
    }
  }

  lemma StepEnds(s: State, event: Event)
    requires s.ending.Running?
    ensures Step(s, event).ending == EndingOf(event)
  {
    hide NextTick;
  }

  // What the clock decides

  /** A tick is the least multiple of its interval behind the instant its timeout was set, but for instants before the epoch. */
  ghost predicate Aligned(tick: Tick) {
    && tick.at == NextTick(tick.since, tick.interval)
    && (IsNextMultiple(tick.at, tick.since, tick.interval) <==>
          tick.since.Floor >= 0 || Remainder(tick.since.Floor, tick.interval) == 0)
  }

  lemma TickOfIsAligned(s: State, timeout: Timeout, i: nat)
    requires i < |TicksOf(s, timeout)|
    ensures Aligned(TicksOf(s, timeout)[i])
  {
    hide NextTick, IsNextMultiple;
    NextTickIsNextMultiple(timeout.since, timeout.interval);
  }

  lemma StepAligned(s: State, event: Event, k: nat)
    requires k < |Step(s, event).ticks|
    requires k < |s.ticks| ==> Aligned(s.ticks[k])
    ensures Aligned(Step(s, event).ticks[k])
  {
    hide Aligned, TicksOf;
    if k >= |s.ticks| {
      TickOfIsAligned(s.(pending := s.pending - {event.timer}, clock := event.now), s.pending[event.timer], k - |s.ticks|);
    }
  }

  lemma {:induction false} RunAligned(s: State, events: seq<Event>, i: nat)
    requires forall k :: 0 <= k < |s.ticks| ==> Aligned(s.ticks[k])
    requires i < |Run(s, events).ticks|
    ensures Aligned(Run(s, events).ticks[i])
    decreases |events|
  {
    hide Step, Aligned;
    if events != [] {
      var after := Step(s, events[0]);
      forall k | 0 <= k < |after.ticks|
        ensures Aligned(after.ticks[k])
      {
        StepAligned(s, events[0], k);
      }
      RunAligned(after, events[1..], i);
    }
  }

  /**
   * Whatever the clock reads, each tick of a run is the least multiple of its interval strictly
   * after the instant its timeout was set, exactly if that is not before the epoch, or on a multiple.
   */
  lemma TicksAlignedExactly(events: seq<Event>, i: nat)
    requires i < |Run(Initial, events).ticks|
    ensures var tick := Run(Initial, events).ticks[i];
            && tick.at == NextTick(tick.since, tick.interval)
            && (IsNextMultiple(tick.at, tick.since, tick.interval) <==>
                  tick.since.Floor >= 0 || Remainder(tick.since.Floor, tick.interval) == 0)
  {
    hide Run, NextTick, IsNextMultiple;
    RunAligned(Initial, events, i);
  }

  /**
   * When a timeout of a current scheduler fires, in any run and whatever the clock reads, the
   * scheduler's next tick is the one just given exactly when the time is one the tick is set for.
   */
  lemma NextTickIsTheSameExactly(events: seq<Event>, timer: nat, now: real)
    requires timer in Run(Initial, events).pending
    requires var s := Run(Initial, events); IsCurrent(s, s.pending[timer].interval, s.pending[timer].scheduler)
    ensures var s := Run(Initial, events);
            var after := Step(s, Fire(timer, now));
            && s.timers in after.pending
            && after.pending[s.timers].scheduler == s.pending[timer].scheduler
            && (TickAt(after.pending[s.timers]) == TickAt(s.pending[timer]) <==>
                  InWindow(now, s.pending[timer].interval, TickAt(s.pending[timer])))
  {
    hide NextTick, InWindow, TicksOf, Run;
    var timeout := Run(Initial, events).pending[timer];
    TickIsMultiple(timeout.since, timeout.interval);
    var k: int :| TickAt(timeout) == k * timeout.interval;
    TimesOfTick(now, timeout.interval, k);
  }

  /**
   * With a clock at the epoch or behind it that has not been set back since the timeout was set,
   * this is when the timeout is early: the time has not reached the tick.
   */
  lemma EarlyTimeoutRepeatsTick(events: seq<Event>, timer: nat, now: real)
    requires timer in Run(Initial, events).pending
    requires var s := Run(Initial, events); IsCurrent(s, s.pending[timer].interval, s.pending[timer].scheduler)
    requires 0.0 <= Run(Initial, events).pending[timer].since <= now
    ensures var s := Run(Initial, events);
            var after := Step(s, Fire(timer, now));
            && s.timers in after.pending
            && (TickAt(after.pending[s.timers]) == TickAt(s.pending[timer]) <==> now < TickAt(s.pending[timer]) as real)
  {
    hide NextTick, TicksOf, Run;
    NextTickIsTheSameExactly(events, timer, now);
    var timeout := Run(Initial, events).pending[timer];
    LaterTimeLaterTick(timeout.since, now, timeout.interval);
  }

  /** A timeout set at 0.5004 whose delay is cut to 499 ms: the tick of second 1 is given twice. */
  lemma TickGivenTwice()
    ensures var s := Run(Initial, [SetInterval(Discovery, 1, 0.5004), Fire(0, 0.9994), Fire(1, 1.0004)]);
            |s.ticks| == 2 && s.ticks[0].at == s.ticks[1].at == 1
  {
    var first, second, third := SetInterval(Discovery, 1, 0.5004), Fire(0, 0.9994), Fire(1, 1.0004);
    var s1 := Step(Initial, first);
    var s2 := Step(s1, second);
    var s3 := Step(s2, third);
    assert s1.pending[0] == Timeout(0, 1, 0.5004) && s2.pending[1] == Timeout(0, 1, 0.9994);
    assert [first, second, third][1..] == [second, third] && [second, third][1..] == [third] && [third][1..] == [];
    assert Run(s2, [third]) == Run(s3, []) == s3;
    assert Run(s1, [second, third]) == Run(s2, [third]);
  }

  /** A timeout of a current scheduler fires at no earlier a reading of the clock than it was set at. */
  predicate FiresBehind(s: State, event: Event) {
    event.Fire? && event.timer in s.pending &&
    IsCurrent(s, s.pending[event.timer].interval, s.pending[event.timer].scheduler) ==>
      s.pending[event.timer].since <= event.now
  }

  /** No timeout finds the clock set back. */
  predicate NeverSetBack(s: State, events: seq<Event>)
    decreases |events|
  {
    events == [] || (FiresBehind(s, events[0]) && NeverSetBack(Step(s, events[0]), events[1..]))
  }

  /** The ticks of a scheduler do not go back, and its pending tick is no earlier. */
  ghost predicate TicksRise(s: State) {
    && (forall i, j :: 0 <= i < j < |s.ticks| && s.ticks[i].scheduler == s.ticks[j].scheduler ==> s.ticks[i].at <= s.ticks[j].at)
    && (forall i, t :: 0 <= i < |s.ticks| && t in s.pending && s.ticks[i].scheduler == s.pending[t].scheduler ==>
          s.ticks[i].interval == s.pending[t].interval && s.ticks[i].at <= TickAt(s.pending[t]))
    && (forall i :: 0 <= i < |s.ticks| ==> s.ticks[i].scheduler < s.made)
  }

  lemma TicksOfTell(s: State, timeout: Timeout, i: nat)
    requires i < |TicksOf(s, timeout)|
    ensures var tick := TicksOf(s, timeout)[i];
            tick.scheduler == timeout.scheduler && tick.interval == timeout.interval && tick.at == TickAt(timeout)
  {
  }

  /** A timeout less and another configuration do not matter to the ticks. */
  lemma RisesAlike(s: State, t: State)
    requires TicksRise(s) && t.ticks == s.ticks && t.made == s.made
    requires forall u :: u in t.pending ==> u in s.pending && t.pending[u] == s.pending[u]
    ensures TicksRise(t)
  {
    hide TickAt;
  }

  lemma ServeKeepsRising(s: State, interval: Interval)
    requires TicksRise(s) && forall t :: t in s.pending ==> s.pending[t].scheduler < s.made
    ensures TicksRise(Serve(s, interval))
  {
    hide TickAt;
  }

  lemma SetIntervalKeepsRising(s: State, channel: Channel, interval: int, now: real)
    requires Numbered(s) && TicksRise(s)
    ensures TicksRise(Step(s, SetInterval(channel, interval, now)))
  {
    hide TickAt, Serve, Configured, TicksRise;
    RisesAlike(s, EndWith(s, Errored));
    if s.ending.Running? && interval > 0 {
      var prepared := Drop(Configure(s.(clock := now), channel, interval), Configured(s, channel));
      RisesAlike(s, prepared);
      ServeKeepsRising(prepared, interval);
    }
  }

  lemma TickMovesOn(timeout: Timeout, next: Timeout)
    requires next.interval == timeout.interval && timeout.since <= next.since
    ensures TickAt(timeout) <= TickAt(next)
  {
    hide NextTick;
    LaterTimeLaterTick(timeout.since, next.since, timeout.interval);
  }

  lemma EmitTicksRise(s: State, timer: nat, now: real)
    requires Numbered(s) && TicksRise(s) && timer in s.pending && s.pending[timer].since <= now
    ensures TicksRise(Emit(s.(pending := s.pending - {timer}, clock := now), s.pending[timer]))
  {
    hide TickAt, TicksOf;
    var timeout := s.pending[timer];
    var fired := s.(pending := s.pending - {timer}, clock := now);
    var after := Emit(fired, timeout);
    assert TickAt(timeout) <= TickAt(after.pending[s.timers]) by {
      TickMovesOn(timeout, after.pending[s.timers]);
    }
    forall i | |s.ticks| <= i < |after.ticks|
      ensures after.ticks[i].scheduler == timeout.scheduler && after.ticks[i].at == TickAt(timeout)
              && after.ticks[i].interval == timeout.interval
    {
      TicksOfTell(fired, timeout, i - |s.ticks|);
    }
  }

  lemma StepKeepsRising(s: State, event: Event)
    requires Numbered(s) && TicksRise(s) && FiresBehind(s, event)
    ensures TicksRise(Step(s, event))
  {
    hide TickAt, TicksOf, Numbered, TicksRise, Emit;
    match event
    case SetInterval(channel, interval, now) =>
      SetIntervalKeepsRising(s, channel, interval, now);
    case Fire(timer, now) =>
      if timer in s.pending {
        if IsCurrent(s, s.pending[timer].interval, s.pending[timer].scheduler) {
          EmitTicksRise(s, timer, now);
        } else {
          RisesAlike(s, Step(s, event));
        }
      }
    case _ =>
      RisesAlike(s, Step(s, event));
  }

  lemma {:induction false} RunKeepsRising(s: State, events: seq<Event>)
    requires Invariant(s) && TicksRise(s) && NeverSetBack(s, events)
    ensures TicksRise(Run(s, events))
    decreases |events|
  {
    hide Step, EachScheduled, ServesConfigured, Numbered, TicksRise, FiresBehind;
    if events != [] {
      StepKeepsInvariant(s, events[0]);
      StepKeepsRising(s, events[0]);
      RunKeepsRising(Step(s, events[0]), events[1..]);
    }
  }

  /** If no timeout finds the clock set back, no scheduler's ticks go back. */
  lemma TicksDoNotGoBack(events: seq<Event>, i: nat, j: nat)
    requires NeverSetBack(Initial, events) && i <= j < |Run(Initial, events).ticks|
    ensures var ticks := Run(Initial, events).ticks;
            ticks[i].scheduler == ticks[j].scheduler ==> ticks[i].at <= ticks[j].at
  {
    RunKeepsRising(Initial, events);
  }
}
