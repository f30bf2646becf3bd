/**
 Losing the broker's acknowledgement does no harm: silence, "unknown" results and stale snapshots,
 however many, followed by one fresh snapshot lead to exactly the state the acknowledgement would have
 produced, provided the broker did execute the request, and only then.
 */
module OrderAcknowledgement {
  import opened Common
  import opened OrderManagement
  import opened OrderInvariant

  /** An input that brings no broker truth: a failed query, or an execution result nobody can interpret. */
  predicate BringsNoTruth(input: Input) {
    match input
    case Observe(position, tick, _) => !position.isFresh || !tick.isFresh
    case Deliver(confirmation, _) => confirmation.status == Unknown && confirmation.positionExists != Some(false)
    case _ => false
  }

  /** Equal in everything but the phase bookkeeping of STALE. */
  predicate SameButStaleness(s: ManagedPosition, t: ManagedPosition) {
    t.(phase := s.phase, resumePhase := s.resumePhase, lastError := s.lastError) == s
  }

  lemma {:induction false} SilenceKeepsThePendingAction(s: ManagedPosition, quiet: seq<Input>)
    requires Consistent(s) && s.pendingAction.Some?
    requires forall i :: 0 <= i < |quiet| ==> BringsNoTruth(quiet[i])
    ensures Consistent(Run(s, quiet)) && SameButStaleness(s, Run(s, quiet))
    decreases |quiet|
  {
    if quiet != [] {
      assert BringsNoTruth(quiet[0]);
      NextStep(s, quiet[0]);
      assert SameButStaleness(s, Next(s, quiet[0]));
      SilenceKeepsThePendingAction(Next(s, quiet[0]), quiet[1..]);
    }
  }

  lemma ActiveStaysManaged(w: ManagedPosition, position: BrokerPosition, closePrice: real, settings: ManagementSettings)
    requires w.phase == WaitingBE || IsProtectedPhase(w.phase)
    requires w.pendingAction.None? || !ActionIsReflected(w.pendingAction.value, position, settings.constraints)
    ensures var t := EvaluateActive(w, position, closePrice, settings).state;
            t.phase == WaitingBE || IsProtectedPhase(t.phase)
  {
  }

  /** A usable look at the position the pending action was meant for. */
  predicate SeesPosition(s: ManagedPosition, position: BrokerPosition, tick: MarketTick, settings: ManagementSettings) {
    && position.isFresh && tick.isFresh && position.present
    && IdentityError(s, position, settings.constraints).None?
    && tick.ClosingPrice(s.side) > 0.0
  }

  lemma SnapshotSettlesPending(s: ManagedPosition, position: BrokerPosition, tick: MarketTick,
                               settings: ManagementSettings)
    requires Consistent(s) && s.pendingAction.Some? && SeesPosition(s, position, tick, settings)
    ensures var d := Evaluate(s, position, tick, settings);
            if ActionIsReflected(s.pendingAction.value, position, settings.constraints)
            then d.state == ApplyConfirmedAction(s, s.pendingAction.value) && d.reason == PendingActionReconciled
            else d.state.phase != ErrorNonRetryable
  {
    var a := s.pendingAction.value;
    assert Evaluate(s, position, tick, settings) == EvaluateFresh(s, position, tick, settings);
    if !ActionIsReflected(a, position, settings.constraints) {
      var active := if s.phase == Stale then Unstale(s) else s;
      ActiveStaysManaged(active, position, tick.ClosingPrice(s.side), settings);
      assert EvaluateFresh(s, position, tick, settings)
          == EvaluateActive(active, position, tick.ClosingPrice(s.side), settings);
    }
  }

  /**
   Delivering CONFIRMED with the broker's stop and take-profit, or hearing nothing intelligible and then
   seeing the same stop and take-profit in a fresh snapshot: the same state, exactly when the broker
   reflects the action.
   */
  lemma LostAcknowledgementIsHarmless(s: ManagedPosition, quiet: seq<Input>, confirmation: ActionConfirmation,
                                      position: BrokerPosition, tick: MarketTick, settings: ManagementSettings)
    requires Consistent(s) && s.pendingAction.Some?
    requires forall i :: 0 <= i < |quiet| ==> BringsNoTruth(quiet[i])
    requires SeesPosition(s, position, tick, settings)
    requires confirmation.status == Confirmed && confirmation.positionExists != Some(false)
    requires confirmation.effectiveSl == position.brokerSl && confirmation.effectiveTp == position.brokerTp
    ensures ApplyConfirmation(s, confirmation, settings).Ok?
    ensures Evaluate(Run(s, quiet), position, tick, settings).state == ApplyConfirmation(s, confirmation, settings).value
       <==> ActionIsReflected(s.pendingAction.value, position, settings.constraints)
  {
    SilenceKeepsThePendingAction(s, quiet);
    SnapshotSettlesPending(Run(s, quiet), position, tick, settings);
  }
}
