/**
 Which observations the machine acts on at all, said in the snapshot's own fields: one of another position ends
 management, one that shows the position gone closes it, a stale or unpriced one only marks the state stale.
 */
module OrderIdentity {
  import opened Common
  import opened OrderManagement
  import opened OrderInvariant

  /** The price tolerance is a millionth of the smaller of tick and digit quantum, and 1e-12 on top. */
  lemma ToleranceMeaning(c: SymbolConstraints)
    ensures var excess := (PriceTolerance(c) - 0.000000000001) * 1000000.0;
            && excess <= c.tickSize && excess <= DigitQuantum(c)
            && (excess == c.tickSize || excess == DigitQuantum(c))
  {
  }

  lemma {:induction false} QuantumMeaning(c: SymbolConstraints)
    ensures DigitQuantum(c) * Pow10(c.digits) == 1.0
    ensures Pow10(0) == 1.0 && Pow10(c.digits + 1) == 10.0 * Pow10(c.digits)
  {
    Divides(Pow10(c.digits));
    hide Pow10;
  }

  lemma Divides(x: real)
    requires x > 0.0
    ensures 1.0 / x * x == 1.0
  {
  }

  /** The snapshot is not of the managed position: wrong id, wrong or unknown side, or another entry price. */
  predicate IsForeign(state: ManagedPosition, position: BrokerPosition, tolerance: real) {
    || position.positionId != state.positionId
    || position.side != Some(state.side)
    || (position.present
        && (position.entryPrice <= 0.0
            || position.entryPrice > state.entryPrice + tolerance || position.entryPrice < state.entryPrice - tolerance))
  }

  /** What is wrong with it first: id, then side, then entry. */
  function FirstMismatch(state: ManagedPosition, position: BrokerPosition): Fault {
    if position.positionId != state.positionId then PositionIdMismatch
    else if position.side.None? then PositionSideInvalid
    else if position.side.value != state.side then PositionSideMismatch
    else if position.entryPrice <= 0.0 then PositionEntryInvalid
    else PositionEntryMismatch
  }

  lemma FreshIsNotRefused(state: ManagedPosition, position: BrokerPosition, tick: MarketTick, settings: ManagementSettings)
    ensures !EvaluateFresh(state, position, tick, settings).reason.IdentityFailed?
  {
    hide PriceTolerance, RThresholdReached, ProfitR, NormalizeStopTarget, IsStrictlyMoreProtective, IsAtLeastAsProtective,
      SameOptionalPrice;
  }

  /** A fresh observation is refused, for good, exactly if it is of another position. */
  lemma RefusedIffForeign(state: ManagedPosition, position: BrokerPosition, tick: MarketTick, settings: ManagementSettings)
    requires state.phase != Closed && state.phase != Unmanaged && position.isFresh && tick.isFresh
    ensures var d := Evaluate(state, position, tick, settings);
            && (d.reason.IdentityFailed? <==> IsForeign(state, position, PriceTolerance(settings.constraints)))
            && (d.reason.IdentityFailed? ==>
                  && d.reason.fault == FirstMismatch(state, position) && d.action.None?
                  && d.state == state.(phase := ErrorNonRetryable, pendingAction := None,
                                       lastError := Some(FirstMismatch(state, position))))
  {
    hide PriceTolerance, EvaluateFresh;
    FreshIsNotRefused(state, position, tick, settings);
  }

  /** How the observations that do not reach the lifecycle are answered. */
  lemma UnusableObservation(state: ManagedPosition, position: BrokerPosition, tick: MarketTick, settings: ManagementSettings)
    requires state.phase != Closed && state.phase != Unmanaged
    ensures var d := Evaluate(state, position, tick, settings);
            var own := !IsForeign(state, position, PriceTolerance(settings.constraints));
            var price := if state.side == Buy then tick.bid else tick.ask;
            && (!position.isFresh || !tick.isFresh ==>
                  d.state == Staled(state, BrokerSnapshotUnavailable) && d.action.None? && d.reason == SnapshotUnavailable)
            && (position.isFresh && tick.isFresh && own && !position.present ==>
                  && d.state == state.(phase := Closed, pendingAction := None, resumePhase := None, lastError := None)
                  && d.action.None? && d.reason == PositionConfirmedClosed)
            && (position.isFresh && tick.isFresh && own && position.present ==>
                  && (state.phase == Paused ==> d.state == state && d.action.None? && d.reason == StillPaused)
                  && (state.phase == ErrorNonRetryable ==>
                        d.state == state && d.action.None? && d.reason == StillNonRetryable)
                  && (state.phase != Paused && state.phase != ErrorNonRetryable && price <= 0.0 ==>
                        d.state == Staled(state, InvalidMarketTick) && d.action.None? && d.reason == TickInvalid))
  {
    hide PriceTolerance, EvaluateFresh;
  }

  /** STALE on top of the phase before, which a second stale observation does not overwrite. */
  function Staled(state: ManagedPosition, fault: Fault): ManagedPosition {
    var below := if state.phase == Stale then state.resumePhase else Some(state.phase);
    state.(phase := Stale, resumePhase := below, lastError := Some(fault))
  }

  /** Once closed, nothing is answered any more. */
  lemma ClosedIsDeaf(state: ManagedPosition, position: BrokerPosition, tick: MarketTick, settings: ManagementSettings)
    requires state.phase == Closed || state.phase == Unmanaged
    ensures var d := Evaluate(state, position, tick, settings);
            d.state == state && d.action.None? && d.reason == Inactive
  {
  }

  /** Every action of every run answers a fresh snapshot of the managed id, side and entry, and is about that position. */
  lemma EmittedOnlyForOwnPosition(positionId: int, side: Side, entryPrice: real, initialSl: real, inputs: seq<Input>,
                                  input: Input)
    requires StartManagement(positionId, side, entryPrice, initialSl).Ok?
    requires Emitted(Run(StartManagement(positionId, side, entryPrice, initialSl).value, inputs), input).Some?
    ensures var a := Emitted(Run(StartManagement(positionId, side, entryPrice, initialSl).value, inputs), input).value;
            var tolerance := PriceTolerance(input.settings.constraints);
            && a.positionId == positionId && a.side == side
            && input.position.isFresh && input.tick.isFresh && input.position.present
            && input.position.positionId == positionId && input.position.side == Some(side)
            && entryPrice - tolerance <= input.position.entryPrice <= entryPrice + tolerance
            && input.position.entryPrice > 0.0
  {
    EveryManagedStateIsConsistent(positionId, side, entryPrice, initialSl, inputs);
    var s := Run(StartManagement(positionId, side, entryPrice, initialSl).value, inputs);
    EmissionNeedsNoPending(s, input);
    hide Run, Evaluate, EvaluateFresh, PriceTolerance;
    EmittedIsPending(s, input);
  }

  lemma EmittedIsPending(s: ManagedPosition, input: Input)
    requires Consistent(s) && Emitted(s, input).Some?
    ensures Emitted(s, input).value.positionId == s.positionId && Emitted(s, input).value.side == s.side
  {
    hide Evaluate, Acts;
    EmissionNeedsNoPending(s, input);
    NextStep(s, input);
  }
}
