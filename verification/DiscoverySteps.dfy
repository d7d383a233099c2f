/** What one event changes in the SunSpec discovery, field by field. */
module DiscoverySteps {
  import opened DiscoveryRun

  /** A stop that is acted upon. */
  predicate Halts(s: State, event: Event) {
    event.Stop? && !Over(s)
  }

  predicate Opens(s: State, event: Event) {
    event.Candidate? && s.subscribed && !Over(s) && event.opens
  }

  predicate Finds(s: State, event: Event, k: nat) {
    event == Found(k) && k < |s.endpoints| && !Over(s)
  }

  predicate Ends(s: State, event: Event, k: nat) {
    !s.terminal && (event == ScanCompleted(k) || event == ScanFailed(k))
  }

  // Cancelling

  /** The fields that completing a scan and cancelling others leave alone. */
  predicate SameOtherwise(s: State, t: State) {
    && t.entered == s.entered && t.listened == s.listened && t.upstreamCompleted == s.upstreamCompleted
    && t.stopping == s.stopping && t.failing == s.failing
    && |t.endpoints| == |s.endpoints|
  }

  lemma CompleteScanLeaves(s: State, i: nat, k: nat)
    requires i < |s.endpoints| && k < |s.endpoints|
    ensures var after := CompleteScan(s, i);
            && SameOtherwise(s, after)
            && after.endpoints[k].emitted == s.endpoints[k].emitted
            && after.endpoints[k].cancelled == s.endpoints[k].cancelled
  {
  }

  lemma {:induction false} CancelFromLeaves(s: State, i: nat, world: World, k: nat)
    requires i <= |s.endpoints| && k < |s.endpoints|
    ensures var after := CancelFrom(s, i, world);
            && after.endpoints[k].emitted == s.endpoints[k].emitted
            && (s.endpoints[k].cancelled ==> after.endpoints[k].cancelled)
            && (k >= i && !after.terminal ==> after.endpoints[k].cancelled)
    decreases |s.endpoints| - i
  {
    hide CompleteScan, SameOtherwise;
    if i < |s.endpoints| && !s.terminal {
      var asked := s.(endpoints := s.endpoints[i := s.endpoints[i].(cancelled := true)]);
      CompleteScanLeaves(asked, i, k);
      var next := if world(i) && !s.endpoints[i].cancelled then CompleteScan(asked, i) else asked;
      CancelFromLeaves(next, i + 1, world, k);
    }
  }

  lemma {:induction false} CancelFromLeavesRest(s: State, i: nat, world: World)
    requires i <= |s.endpoints|
    ensures SameOtherwise(s, CancelFrom(s, i, world))
    decreases |s.endpoints| - i
  {
    hide CompleteScan;
    if i < |s.endpoints| && !s.terminal {
      var asked := s.(endpoints := s.endpoints[i := s.endpoints[i].(cancelled := true)]);
      CompleteScanLeaves(asked, i, i);
      CancelFromLeavesRest(if world(i) && !s.endpoints[i].cancelled then CompleteScan(asked, i) else asked, i + 1, world);
    }
  }

  lemma CompleteScanTells(s: State, i: nat, k: nat)
    requires i < |s.endpoints|
    ensures Next(k) in CompleteScan(s, i).trace <==> Next(k) in s.trace
  {
  }

  lemma {:induction false} CancelFromTells(s: State, i: nat, world: World, k: nat)
    requires i <= |s.endpoints|
    ensures Next(k) in CancelFrom(s, i, world).trace <==> Next(k) in s.trace
    decreases |s.endpoints| - i
  {
    hide CompleteScan;
    if i < |s.endpoints| && !s.terminal {
      var asked := s.(endpoints := s.endpoints[i := s.endpoints[i].(cancelled := true)]);
      CompleteScanTells(asked, i, k);
      CancelFromTells(if world(i) && !s.endpoints[i].cancelled then CompleteScan(asked, i) else asked, i + 1, world, k);
    }
  }

  // Ending

  /** The same to the `k`-th endpoint, but for its session. */
  predicate SameAt(s: State, t: State, k: nat) {
    k < |s.endpoints| && k < |t.endpoints| ==>
      t.endpoints[k].emitted == s.endpoints[k].emitted && t.endpoints[k].cancelled == s.endpoints[k].cancelled
  }

  predicate ToldAlike(s: State, t: State, k: nat) {
    Next(k) in t.trace <==> Next(k) in s.trace
  }

  lemma CompleteLeaves(s: State, k: nat)
    ensures SameOtherwise(s, Complete(s)) && SameAt(s, Complete(s), k) && ToldAlike(s, Complete(s), k)
    ensures SameOtherwise(s, MaybeComplete(s)) && SameAt(s, MaybeComplete(s), k) && ToldAlike(s, MaybeComplete(s), k)
  {
    hide AllCompleted;
  }

  lemma CloseLeaves(s: State, world: World, k: nat)
    ensures var after := CancelAndClose(s, world);
            && SameOtherwise(s, after) && ToldAlike(s, after, k)
            && (k < |s.endpoints| ==>
                  && after.endpoints[k].emitted == s.endpoints[k].emitted
                  && (s.endpoints[k].cancelled ==> after.endpoints[k].cancelled))
  {
    CancelFromLeavesRest(s, 0, world);
    CancelFromTells(s, 0, world, k);
    if k < |s.endpoints| {
      CancelFromLeaves(s, 0, world, k);
    }
    hide CancelFrom;
  }

  lemma FailLeaves(s: State, world: World, k: nat)
    ensures var after := Fail(s, world);
            && after.entered == s.entered && after.listened == s.listened && after.upstreamCompleted == s.upstreamCompleted
            && |after.endpoints| == |s.endpoints| && ToldAlike(s, after, k)
            && (k < |s.endpoints| ==>
                  && after.endpoints[k].emitted == s.endpoints[k].emitted
                  && (s.endpoints[k].cancelled ==> after.endpoints[k].cancelled))
            && if s.failing || s.terminal then after == s else after.failing && after.stopping && after.terminal
  {
    CloseLeaves(s.(failing := true, stopping := true), world, k);
    hide CancelAndClose;
  }

  lemma ScanEndLeaves(s: State, event: Event, k: nat)
    ensures (event.ScanCompleted? || event.ScanFailed?) && event.endpoint < |s.endpoints| ==>
              var after := CompleteScan(s, event.endpoint);
              SameOtherwise(s, after) && SameAt(s, after, k) && ToldAlike(s, after, k)
  {
    hide CompleteScan;
    if (event.ScanCompleted? || event.ScanFailed?) && event.endpoint < |s.endpoints| {
      CompleteScanLeaves(s, event.endpoint, event.endpoint);
      CompleteScanTells(s, event.endpoint, k);
      if k < |s.endpoints| {
        CompleteScanLeaves(s, event.endpoint, k);
      }
    }
  }

  // One event

  predicate FlagsMove(s: State, event: Event, after: State) {
    && (after.entered <==> s.entered || event.Enter?)
    && (after.listened <==> s.listened || (event.Enter? && !s.entered && !Over(s)))
    && (after.upstreamCompleted <==> s.upstreamCompleted || (event.UpstreamCompleted? && s.subscribed))
    && |after.endpoints| == |s.endpoints| + (if Opens(s, event) then 1 else 0)
  }

  predicate EndpointMoves(s: State, event: Event, after: State, k: nat) {
    k < |s.endpoints| && k < |after.endpoints| ==>
      && (after.endpoints[k].emitted <==> s.endpoints[k].emitted || Finds(s, event, k))
      && (s.endpoints[k].cancelled ==> after.endpoints[k].cancelled)
      && (after.endpoints[k].cancelled && !s.endpoints[k].cancelled ==> Halts(s, event) || Errs(s, event))
  }

  predicate TraceMoves(s: State, event: Event, after: State, k: nat) {
    Next(k) in after.trace <==> Next(k) in s.trace || (Finds(s, event, k) && !s.endpoints[k].emitted)
  }

  /** What an event changes, but for the end of a scan and of the discovery. */
  predicate Moves(s: State, event: Event, after: State, k: nat) {
    FlagsMove(s, event, after) && EndpointMoves(s, event, after, k) && TraceMoves(s, event, after, k)
  }

  lemma EnterMoves(s: State, world: World, k: nat)
    ensures Moves(s, Enter, Step(s, Enter, world), k)
  {
    CompleteLeaves(s.(entered := true), k);
    hide Complete;
  }

  lemma UpstreamMoves(s: State, world: World, k: nat)
    ensures Moves(s, UpstreamCompleted, Step(s, UpstreamCompleted, world), k)
  {
    CompleteLeaves(s.(upstreamCompleted := true), k);
    hide MaybeComplete;
  }

  lemma CandidateMoves(s: State, opens: bool, world: World, k: nat)
    requires s.subscribed ==> s.entered && !s.terminal
    ensures Moves(s, Candidate(opens), Step(s, Candidate(opens), world), k)
  {
    FailLeaves(s, world, k);
    hide Fail;
  }

  lemma FailureMoves(s: State, world: World, k: nat)
    requires s.failing ==> s.terminal
    ensures Moves(s, UpstreamFailed, Step(s, UpstreamFailed, world), k)
  {
    FailLeaves(s, world, k);
    hide Fail;
  }

  lemma ScanEndMoves(s: State, event: Event, world: World, k: nat)
    requires event.ScanCompleted? || event.ScanFailed?
    ensures Moves(s, event, Step(s, event, world), k)
  {
    ScanEndLeaves(s, event, k);
    FailLeaves(s, world, k);
    hide Fail, CompleteScan;
  }

  lemma StopMoves(s: State, world: World, k: nat)
    ensures Moves(s, Stop, Step(s, Stop, world), k)
  {
    CloseLeaves(s.(stopping := true), world, k);
    hide CancelAndClose;
  }

  lemma FoundMoves(s: State, i: nat, world: World, k: nat)
    ensures Moves(s, Found(i), Step(s, Found(i), world), k)
  {
  }

  /** Sessions come and go without further consequence. */
  predicate OnlySessions(s: State, after: State, k: nat) {
    && SameOtherwise(s, after) && SameAt(s, after, k) && after.trace == s.trace
    && (k < |s.endpoints| && k < |after.endpoints| ==> after.endpoints[k].completed == s.endpoints[k].completed)
  }

  lemma OpenLeaves(s: State, i: nat, open: nat, k: nat)
    requires i < |s.endpoints|
    ensures OnlySessions(s, s.(endpoints := s.endpoints[i := s.endpoints[i].(open := open)]), k)
  {
  }

  lemma WantedLeaves(s: State, i: nat, world: World, k: nat)
    ensures OnlySessions(s, Step(s, SessionWanted(i), world), k)
  {
    hide OnlySessions;
    if i < |s.endpoints| {
      OpenLeaves(s, i, s.endpoints[i].open + 1, k);
    }
    NothingLeaves(s, k);
  }

  lemma ClosedLeaves(s: State, i: nat, world: World, k: nat)
    ensures OnlySessions(s, Step(s, SessionClosed(i), world), k)
  {
    hide OnlySessions;
    if i < |s.endpoints| && s.endpoints[i].open > 0 {
      OpenLeaves(s, i, s.endpoints[i].open - 1, k);
    }
    NothingLeaves(s, k);
  }

  lemma NothingLeaves(s: State, k: nat)
    ensures OnlySessions(s, s, k)
  {
  }

  lemma SessionsMove(s: State, event: Event, after: State, k: nat)
    requires OnlySessions(s, after, k) && (event.SessionWanted? || event.SessionClosed?)
    ensures Moves(s, event, after, k)
  {
  }

  lemma StepMoves(s: State, event: Event, world: World, k: nat)
    requires Invariant(s)
    ensures Moves(s, event, Step(s, event, world), k)
  {
    hide Step, Moves, OnlySessions, TraceFits, SessionsFit;
    match event
    case Enter =>
      EnterMoves(s, world, k);
    case Candidate(opens) =>
      CandidateMoves(s, opens, world, k);
    case UpstreamCompleted =>
      UpstreamMoves(s, world, k);
    case UpstreamFailed =>
      FailureMoves(s, world, k);
    case Found(i) =>
      FoundMoves(s, i, world, k);
    case Stop =>
      StopMoves(s, world, k);
    case ScanCompleted(_) =>
      ScanEndMoves(s, event, world, k);
    case ScanFailed(_) =>
      ScanEndMoves(s, event, world, k);
    case SessionWanted(i) =>
      WantedLeaves(s, i, world, k);
      SessionsMove(s, event, Step(s, event, world), k);
    case SessionClosed(i) =>
      ClosedLeaves(s, i, world, k);
      SessionsMove(s, event, Step(s, event, world), k);
  }

  lemma StepEndings(s: State, event: Event, world: World)
    requires Invariant(s)
    ensures var after := Step(s, event, world);
            && (after.failing <==> s.failing || Errs(s, event))
            && (after.stopping <==> s.stopping || Halts(s, event) || Errs(s, event))
            && (s.terminal || Errs(s, event) ==> after.terminal)
  {
    hide CancelAndClose, CompleteScan, AllCompleted, TraceFits, SessionsFit, SameAt, ToldAlike;
    CloseLeaves(s.(stopping := true), world, 0);
    CloseLeaves(s.(failing := true, stopping := true), world, 0);
    ScanEndLeaves(s, event, 0);
  }

  /** An event that neither stops the discovery nor makes it err completes at most the scan that ends. */
  lemma StepCompletes(s: State, event: Event, world: World, k: nat)
    requires Invariant(s) && k < |s.endpoints| && !Halts(s, event) && !Errs(s, event)
    ensures var after := Step(s, event, world);
            && k < |after.endpoints|
            && (after.endpoints[k].completed <==> s.endpoints[k].completed || Ends(s, event, k))
  {
    hide CancelAndClose, Fail, CompleteScan, Complete, MaybeComplete, AllCompleted, TraceFits, SessionsFit;
    match event
    case Enter =>
      EndingCompletes(s.(entered := true), k);
    case UpstreamCompleted =>
      EndingCompletes(s.(upstreamCompleted := true), k);
    case ScanCompleted(i) =>
      if i < |s.endpoints| {
        CompletesOne(s, i, k);
      }
    case ScanFailed(i) =>
      if i < |s.endpoints| {
        CompletesOne(s, i, k);
      }
    case SessionWanted(i) =>
      WantedLeaves(s, i, world, k);
    case SessionClosed(i) =>
      ClosedLeaves(s, i, world, k);
    case _ =>
  }

  lemma EndingCompletes(s: State, k: nat)
    requires k < |s.endpoints|
    ensures |Complete(s).endpoints| == |MaybeComplete(s).endpoints| == |s.endpoints|
    ensures Complete(s).endpoints[k].completed == MaybeComplete(s).endpoints[k].completed == s.endpoints[k].completed
  {
    hide AllCompleted;
  }

  /** A stop completes the scans that complete as they are cancelled, and cancels all unless it ends the discovery. */
  lemma StopCompletes(s: State, world: World, k: nat)
    requires Invariant(s) && !Over(s) && k < |s.endpoints|
    ensures var after := Step(s, Stop, world);
            && |after.endpoints| == |s.endpoints|
            && (after.endpoints[k].completed <==> s.endpoints[k].completed || world(k))
            && (after.terminal || after.endpoints[k].cancelled)
            && !s.endpoints[k].cancelled
  {
    hide CancelFrom, TraceFits;
    var stopping := s.(stopping := true);
    StoppingCancels(s);
    CancelFromCompletes(stopping, 0, world, k);
    CancelFromLeaves(stopping, 0, world, k);
  }

  /** A scan that a stop completes is among those it cancels. */
  lemma {:induction false} CompletedByCancelling(s: State, i: nat, world: World, k: nat)
    requires i <= |s.endpoints| && k < |s.endpoints|
    ensures CancelFrom(s, i, world).endpoints[k].completed ==>
              s.endpoints[k].completed || CancelFrom(s, i, world).endpoints[k].cancelled
    decreases |s.endpoints| - i
  {
    hide CompleteScan;
    if i < |s.endpoints| && !s.terminal {
      var asked := s.(endpoints := s.endpoints[i := s.endpoints[i].(cancelled := true)]);
      CompletesOne(asked, i, k);
      var next := if world(i) && !s.endpoints[i].cancelled then CompleteScan(asked, i) else asked;
      CompletedByCancelling(next, i + 1, world, k);
      CancelFromLeaves(next, i + 1, world, k);
    }
  }

  lemma CompletedIsCancelled(s: State, world: World, k: nat)
    requires !Over(s) && k < |s.endpoints|
    ensures var after := Step(s, Stop, world);
            k < |after.endpoints| && (after.endpoints[k].completed ==> s.endpoints[k].completed || after.endpoints[k].cancelled)
  {
    CompletedByCancelling(s.(stopping := true), 0, world, k);
  }

  lemma EndedIsCompleted(s: State, k: nat)
    requires Invariant(s) && s.terminal && !s.failing && k < |s.endpoints|
    ensures s.endpoints[k].completed
  {
  }

  lemma OpenedIsFresh(s: State, event: Event, world: World)
    requires Opens(s, event)
    ensures Step(s, event, world).endpoints == s.endpoints + [Endpoint(false, false, false, 1)]
  {
  }

  /** A discovery at work has not ended: the Modbus discovery or a scan is still to end. */
  lemma EndsWhenAllHave(s: State)
    requires Invariant(s) && s.listened && !s.failing
    ensures s.terminal <==> s.upstreamCompleted && AllCompleted(s)
  {
  }
}
