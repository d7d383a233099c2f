/** The run of a discovery as the program keeps it: a list of endpoint scans and a few flags. */
module SunspecDiscoveryRunModel {
  import opened DiscoveryRun

  class SunspecDiscoveryRun {
    /** Which scans complete while they are being cancelled. */
    const world: World

    var loopEntered: bool
    var listened: bool
    var subscribed: bool
    var modbusCompleted: bool
    var stopping: bool
    var failing: bool
    var terminal: bool
    var endpoints: seq<Endpoint>
    /** What the observer has seen. */
    var trace: seq<Signal>

    ghost function Abstract(): State
      reads this
    {
      State(loopEntered, listened, subscribed, modbusCompleted, stopping, failing, terminal, endpoints, trace)
    }

    ghost predicate Valid()
      reads this
    {
      Invariant(Abstract())
    }

    constructor (world: World)
      ensures Valid() && Abstract() == Initial && this.world == world
    {
      this.world := world;
      loopEntered, listened, subscribed, modbusCompleted := false, false, false, false;
      stopping, failing, terminal := false, false, false;
      endpoints, trace := [], [];
    }

    method StartInLoop()
      requires Valid() && !loopEntered
      modifies this
      ensures Valid() && Abstract() == Step(old(Abstract()), Enter, world)
    {
      hide Invariant;
      StepKeepsInvariant(Abstract(), Enter, world);
      loopEntered := true;
      if terminal || stopping || failing {
        Complete();
        return;
      }
      listened := true;
      subscribed := true;
    }

    /** A Modbus device has been found; making its session may throw. */
    method OpenEndpoint(opens: bool)
      requires Valid() && subscribed
      modifies this
      ensures Valid() && Abstract() == Step(old(Abstract()), Candidate(opens), world)
    {
      hide Invariant, DiscoveryRun.Fail;
      StepKeepsInvariant(Abstract(), Candidate(opens), world);
      if stopping || failing || terminal {
        return;
      }
      if !opens {
        Fail();
        return;
      }
      endpoints := endpoints + [Endpoint(false, false, false, 1)];
    }

    /** The session factory of an endpoint's scanner. */
    method CreateSession(endpoint: nat) returns (created: bool)
      requires Valid() && endpoint < |endpoints| && !endpoints[endpoint].completed
      modifies this
      ensures Valid() && Abstract() == Step(old(Abstract()), SessionWanted(endpoint), world)
      ensures created <==> !old(Over(Abstract()))
    {
      hide Invariant;
      StepKeepsInvariant(Abstract(), SessionWanted(endpoint), world);
      if stopping || failing || terminal {
        return false;
      }
      endpoints := endpoints[endpoint := endpoints[endpoint].(open := endpoints[endpoint].open + 1)];
      return true;
    }

    method OnCandidate(endpoint: nat)
      requires Valid() && endpoint < |endpoints|
      modifies this
      ensures Valid() && Abstract() == Step(old(Abstract()), Found(endpoint), world)
    {
      hide Invariant;
      StepKeepsInvariant(Abstract(), Found(endpoint), world);
      if stopping || failing || terminal || endpoints[endpoint].emitted {
        return;
      }
      endpoints := endpoints[endpoint := endpoints[endpoint].(emitted := true)];
      trace := trace + [Next(endpoint)];
    }

    method OnScannerFailed(endpoint: nat)
      requires Valid() && endpoint < |endpoints| && !terminal
      modifies this
      ensures Valid() && Abstract() == Step(old(Abstract()), ScanFailed(endpoint), world)
    {
      hide Invariant, DiscoveryRun.Fail, CompleteScan;
      StepKeepsInvariant(Abstract(), ScanFailed(endpoint), world);
      if stopping || failing || terminal {
        ScannerCompleted(endpoint);
        return;
      }
      Fail();
    }

    method OnScannerCompleted(endpoint: nat)
      requires Valid() && endpoint < |endpoints| && !terminal
      modifies this
      ensures Valid() && Abstract() == Step(old(Abstract()), ScanCompleted(endpoint), world)
    {
      hide Invariant, CompleteScan;
      StepKeepsInvariant(Abstract(), ScanCompleted(endpoint), world);
      ScannerCompleted(endpoint);
    }

    method ScannerCompleted(endpoint: nat)
      requires endpoint < |endpoints|
      modifies this
      ensures Abstract() == CompleteScan(old(Abstract()), endpoint)
    {
      if endpoints[endpoint].completed {
        return;
      }
      endpoints := endpoints[endpoint := endpoints[endpoint].(completed := true)];
      endpoints := endpoints[endpoint := endpoints[endpoint].(open := 0)];
      assert endpoints == old(endpoints)[endpoint := old(endpoints)[endpoint].(completed := true, open := 0)];
      if !failing {
        MaybeComplete();
      }
    }

    method OnUpstreamCompleted()
      requires Valid() && subscribed
      modifies this
      ensures Valid() && Abstract() == Step(old(Abstract()), UpstreamCompleted, world)
    {
      hide Invariant;
      StepKeepsInvariant(Abstract(), UpstreamCompleted, world);
      modbusCompleted := true;
      MaybeComplete();
    }

    method OnUpstreamFailed()
      requires Valid() && subscribed
      modifies this
      ensures Valid() && Abstract() == Step(old(Abstract()), UpstreamFailed, world)
    {
      hide Invariant, DiscoveryRun.Fail;
      StepKeepsInvariant(Abstract(), UpstreamFailed, world);
      Fail();
    }

    method MaybeComplete()
      modifies this
      ensures Abstract() == DiscoveryRun.MaybeComplete(old(Abstract()))
    {
      if failing || terminal || !modbusCompleted {
        return;
      }
      for i := 0 to |endpoints|
        invariant forall k :: 0 <= k < i ==> endpoints[k].completed
      {
        if !endpoints[i].completed {
          return;
        }
      }
      Complete();
    }

    method Complete()
      modifies this
      ensures Abstract() == DiscoveryRun.Complete(old(Abstract()))
    {
      if failing || terminal {
        return;
      }
      CloseAllSessions();
      terminal := true;
      trace := trace + [Completed];
      subscribed := false;
    }

    method CloseAllSessions()
      modifies `endpoints
      ensures endpoints == Closed(old(endpoints))
    {
      for i := 0 to |endpoints|
        invariant |endpoints| == |old(endpoints)|
        invariant forall k :: 0 <= k < i ==> endpoints[k] == Closed(old(endpoints))[k]
        invariant forall k :: i <= k < |endpoints| ==> endpoints[k] == old(endpoints)[k]
      {
        endpoints := endpoints[i := endpoints[i].(open := 0)];
      }
    }

    method CancelAndCloseEndpoints()
      modifies this
      ensures Abstract() == CancelAndClose(old(Abstract()), world)
    {
      hide CompleteScan;
      for i := 0 to |endpoints|
        invariant |endpoints| == |old(endpoints)|
        invariant CancelFrom(Abstract(), i, world) == CancelFrom(old(Abstract()), 0, world)
      {
        CancelScan(i);
      }
      CloseAllSessions();
    }

    /** Cancels one scan, unless the discovery has ended and let go of it. */
    method CancelScan(i: nat)
      requires i < |endpoints|
      modifies this
      ensures |endpoints| == |old(endpoints)|
      ensures CancelFrom(Abstract(), i + 1, world) == CancelFrom(old(Abstract()), i, world)
    {
      hide CompleteScan;
      if terminal {
        return;
      }
      if endpoints[i].cancelled {
        assert endpoints[i := endpoints[i].(cancelled := true)] == endpoints;
      } else {
        endpoints := endpoints[i := endpoints[i].(cancelled := true)];
        if world(i) {
          ScannerCompleted(i);
        }
      }
    }

    method StopInLoop()
      requires Valid()
      modifies this
      ensures Valid() && Abstract() == Step(old(Abstract()), Stop, world)
    {
      hide Invariant, CancelAndClose;
      StepKeepsInvariant(Abstract(), Stop, world);
      if stopping || failing || terminal {
        return;
      }
      stopping := true;
      CancelAndCloseEndpoints();
    }

    method Fail()
      modifies this
      ensures Abstract() == DiscoveryRun.Fail(old(Abstract()), world)
    {
      hide CancelAndClose;
      if failing || terminal {
        return;
      }
      failing := true;
      stopping := true;
      CancelAndCloseEndpoints();
      terminal := true;
      trace := trace + [Errored];
      subscribed := false;
    }
  }
}
