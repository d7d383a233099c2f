/** The timer as the program keeps it: two configured intervals and the schedulers that serve them. */
module TimerModel {
  import opened Bytes
  import opened TimerSpec

  class Timer {
    var discoveryInterval: Option<Interval>
    var thingInterval: Option<Interval>
    /** The scheduler of each interval, by its number. */
    var schedulers: map<Interval, nat>
    var stopped: bool

    // Schedulers made, timeouts pending with the loop, and what the subscribers have seen
    var made: nat
    var pending: map<nat, Timeout>
    var timers: nat
    var ending: Ending
    var ticks: seq<Tick>

    ghost var clock: real

    ghost function Abstract(): State
      reads this
    {
      State(discoveryInterval, thingInterval, schedulers, made, pending, timers, ending, clock, ticks)
    }

    ghost predicate Valid()
      reads this
    {
      Invariant(Abstract()) && (stopped <==> !ending.Running?)
    }

    constructor ()
      ensures Valid() && Abstract() == Initial
    {
      discoveryInterval, thingInterval, schedulers, stopped := None, None, map[], false;
      made, pending, timers, ending, ticks := 0, map[], 0, Running, [];
      clock := 0.0;
    }

    method SetIntervalInLoop(channel: Channel, interval: int, now: real)
      requires Valid()
      modifies this
      ensures Valid() && Abstract() == Step(old(Abstract()), SetInterval(channel, interval, now))
    {
      hide Invariant, NextTick, Serve;
      StepKeepsInvariant(Abstract(), SetInterval(channel, interval, now));
      if stopped {
        return;
      }
      if interval <= 0 {
        End(Errored);
        return;
      }
      clock := now;
      var previous := if channel.Discovery? then discoveryInterval else thingInterval;
      if channel.Discovery? {
        discoveryInterval := Some(interval);
      } else {
        thingInterval := Some(interval);
      }
      if previous.Some? && previous.value != interval && !InUse(previous.value) {
        schedulers := schedulers - {previous.value};
      }
      ServeInterval(interval, now);
    }

    method ServeInterval(interval: Interval, now: real)
      requires !stopped && now == clock
      modifies `made, `schedulers, `pending, `timers
      ensures Abstract() == Serve(old(Abstract()), interval)
    {
      if interval !in schedulers {
        var scheduler := made;
        made := made + 1;
        schedulers := schedulers[interval := scheduler];
        ScheduleNext(scheduler, interval, now);
      }
    }

    predicate InUse(interval: Interval)
      reads `discoveryInterval, `thingInterval
    {
      discoveryInterval == Some(interval) || thingInterval == Some(interval)
    }

    predicate Current(interval: Interval, scheduler: nat)
      reads `schedulers, `stopped
    {
      !stopped && interval in schedulers && schedulers[interval] == scheduler
    }

    /** A scheduler sets its next timeout; one that has been replaced does not. */
    method ScheduleNext(scheduler: nat, interval: Interval, now: real)
      modifies `pending, `timers
      ensures if Current(interval, scheduler)
              then pending == old(pending)[old(timers) := Timeout(scheduler, interval, now)] && timers == old(timers) + 1
              else pending == old(pending) && timers == old(timers)
    {
      if !Current(interval, scheduler) {
        return;
      }
      pending := pending[timers := Timeout(scheduler, interval, now)];
      timers := timers + 1;
    }

    /** A timeout fires, of a scheduler that is current or not. */
    method OnTimeout(timer: nat, now: real)
      requires Valid() && timer in pending
      modifies this
      ensures Valid() && Abstract() == Step(old(Abstract()), Fire(timer, now))
    {
      hide Invariant, NextTick;
      StepKeepsInvariant(Abstract(), Fire(timer, now));
      var timeout := pending[timer];
      pending := pending - {timer};
      clock := now;
      if !Current(timeout.interval, timeout.scheduler) {
        return;
      }
      EmitTicks(timeout, NextTick(timeout.since, timeout.interval));
      assert ticks == old(ticks) + TicksOf(old(Abstract()), timeout);
      ScheduleNext(timeout.scheduler, timeout.interval, now);
    }

    method EmitTicks(timeout: Timeout, scheduledAt: int)
      modifies `ticks
      ensures var tick := channel => Tick(channel, timeout.scheduler, timeout.interval, timeout.since, scheduledAt);
              ticks == old(ticks)
                + (if discoveryInterval == Some(timeout.interval) then [tick(Discovery)] else [])
                + (if thingInterval == Some(timeout.interval) then [tick(Things)] else [])
    {
      if discoveryInterval == Some(timeout.interval) {
        ticks := ticks + [Tick(Discovery, timeout.scheduler, timeout.interval, timeout.since, scheduledAt)];
      }
      if thingInterval == Some(timeout.interval) {
        ticks := ticks + [Tick(Things, timeout.scheduler, timeout.interval, timeout.since, scheduledAt)];
      }
    }

    method FailInLoop()
      requires Valid()
      modifies this
      ensures Valid() && Abstract() == Step(old(Abstract()), Fail)
    {
      StepKeepsInvariant(Abstract(), Fail);
      End(Errored);
    }

    method Stop()
      requires Valid()
      modifies this
      ensures Valid() && Abstract() == Step(old(Abstract()), TimerSpec.Stop)
    {
      StepKeepsInvariant(Abstract(), TimerSpec.Stop);
      End(Completed);
    }

    method End(how: Ending)
      requires (stopped <==> !ending.Running?) && !how.Running?
      modifies `stopped, `schedulers, `ending
      ensures (stopped <==> !ending.Running?)
      ensures Abstract() == EndWith(old(Abstract()), how)
    {
      if stopped {
        return;
      }
      stopped := true;
      schedulers := map[];
      ending := how;
    }
  }
}
