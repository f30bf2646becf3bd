/**
 Every stop-loss action the machine proposes is safe on its own, whatever state and observation produced
 it; and the break-even gate opens exactly when break-even is representable on the broker's grid.
 */
module OrderActionSafety {
  import opened Common
  import opened Grid
  import opened OrderManagement
  import opened StopNormalization

  /** `stop` protects strictly more than `than` by more than `margin`; an absent stop protects nothing. */
  predicate TighterBy(side: Side, stop: real, than: Option<real>, margin: real) {
    IsPositive(than) ==> if side == Buy then stop > than.value + margin else stop < than.value - margin
  }

  predicate ImprovesBy(side: Side, stop: real, than: Option<real>, step: real) {
    IsPositive(than) ==> if side == Buy then stop - than.value >= step else than.value - stop >= step
  }

  predicate BeyondBreakeven(side: Side, stop: real, entryPrice: real, beOffset: real, tolerance: real) {
    var rawBe := RawBreakeven(side, entryPrice, beOffset);
    if side == Buy then stop >= rawBe - tolerance else stop <= rawBe + tolerance
  }

  predicate StrictlyBeyondBreakeven(side: Side, stop: real, entryPrice: real, beOffset: real) {
    var rawBe := RawBreakeven(side, entryPrice, beOffset);
    if side == Buy then stop > rawBe else stop < rawBe
  }

  predicate KeepsBrokerDistance(side: Side, stop: real, closePrice: real, c: SymbolConstraints) {
    if side == Buy then stop <= closePrice - c.MinimumStopDistance()
    else stop >= closePrice + c.MinimumStopDistance()
  }

  predicate ReasonMatchesSource(reason: ActionReason, source: Phase) {
    match reason
    case Breakeven => source == WaitingBE
    case WideTrail => source == TrailWide
    case TightTrail => source == TrailTight
  }

  /** What an emitted action promises about the observation it answers. */
  ghost predicate SafeAction(a: DesiredAction, state: ManagedPosition, position: BrokerPosition, tick: MarketTick,
                             settings: ManagementSettings)
  {
    var tolerance := PriceTolerance(settings.constraints);
    && a.positionId == state.positionId && a.side == state.side
    && a.preserveTp == position.brokerTp && a.expectedBrokerSl == position.brokerSl
    && a.closePrice == tick.ClosingPrice(state.side)
    && a.targetSl > 0.0
    && TighterBy(a.side, a.targetSl, position.brokerSl, tolerance)
    && ImprovesBy(a.side, a.targetSl, position.brokerSl,
                  settings.minimumUpdateTicks as real * settings.constraints.tickSize - tolerance)
    && BeyondBreakeven(a.side, a.targetSl, state.entryPrice, settings.beOffset, tolerance)
    && (a.reason == Breakeven <==> !AtBreakeven(state, position.brokerSl, settings))
    && (a.reason != Breakeven ==> StrictlyBeyondBreakeven(a.side, a.targetSl, state.entryPrice, settings.beOffset))
    && KeepsBrokerDistance(a.side, a.targetSl, a.closePrice, settings.constraints)
    && ReasonMatchesSource(a.reason, a.sourcePhase)
  }

  lemma BreakevenActionIsSafe(state: ManagedPosition, position: BrokerPosition, tick: MarketTick,
                              settings: ManagementSettings)
    requires tick.ClosingPrice(state.side) > 0.0
    requires EvaluateWaitingBE(state, position, tick.ClosingPrice(state.side), settings).action.Some?
    ensures SafeAction(EvaluateWaitingBE(state, position, tick.ClosingPrice(state.side), settings).action.value,
                       state, position, tick, settings)
  {
    hide RoundStop, RThresholdReached, ProfitR, PriceTolerance, DigitQuantum, ClampedTarget;
    NormalizedStopIsConservative(RawBreakeven(state.side, state.entryPrice, settings.beOffset), state.side,
                                 tick.ClosingPrice(state.side), settings.constraints);
  }

  lemma TrailingActionIsSafe(state: ManagedPosition, position: BrokerPosition, tick: MarketTick,
                             settings: ManagementSettings)
    requires tick.ClosingPrice(state.side) > 0.0
    requires state.phase == TrailWide || state.phase == TrailTight
    requires AtBreakeven(state, position.brokerSl, settings)
    requires EvaluateTrailing(state, position, tick.ClosingPrice(state.side), settings).action.Some?
    ensures SafeAction(EvaluateTrailing(state, position, tick.ClosingPrice(state.side), settings).action.value,
                       state, position, tick, settings)
  {
    hide RoundStop, RThresholdReached, ProfitR, PriceTolerance, DigitQuantum, ClampedTarget;
    var closePrice := tick.ClosingPrice(state.side);
    var a := EvaluateTrailing(state, position, closePrice, settings).action.value;
    var extreme := NewExtreme(state.side, state.extremePrice, closePrice);
    NormalizedStopIsConservative(RawTrail(state.side, extreme, a.sourcePhase, settings), state.side, closePrice,
                                 settings.constraints);
  }

  lemma EmittedActionIsSafe(state: ManagedPosition, position: BrokerPosition, tick: MarketTick,
                            settings: ManagementSettings)
    requires Evaluate(state, position, tick, settings).action.Some?
    ensures SafeAction(Evaluate(state, position, tick, settings).action.value, state, position, tick, settings)
  {
    hide RoundStop, RThresholdReached, ProfitR, PriceTolerance, DigitQuantum, ClampedTarget, NormalizeStopTarget;
    var closePrice := tick.ClosingPrice(state.side);
    var resumed := if state.phase == Stale then Unstale(state) else state;
    var active := if resumed.phase == ErrorRetryable then LeaveBackoff(resumed) else resumed;
    var gated := ReenterBreakevenGate(active, position, settings);
    if gated.phase == WaitingBE {
      BreakevenActionIsSafe(gated, position, tick, settings);
    } else {
      TrailingActionIsSafe(gated, position, tick, settings);
    }
  }

  // ---------- when break-even can be sent ----------

  lemma RoundStopMonotone(a: real, b: real, side: Side, tick: GridStep, quantum: GridStep)
    requires a <= b
    ensures RoundStop(a, side, tick, quantum) <= RoundStop(b, side, tick, quantum)
  {
    FloorToMonotone(a, b, tick);
    FloorToMonotone(FloorTo(a, tick), FloorTo(b, tick), quantum);
    FloorToMonotone(-b, -a, tick);
    FloorToMonotone(FloorTo(-b, tick), FloorTo(-a, tick), quantum);
    RoundStopMirrors(a, tick, quantum);
    RoundStopMirrors(b, tick, quantum);
  }

  /** The price rounds to a stop that is still positive and break-even within tolerance. */
  predicate RoundsToBreakeven(price: real, side: Side, entryPrice: real, settings: ManagementSettings) {
    var c := settings.constraints;
    var stop := RoundStop(price, side, c.tickSize, DigitQuantum(c));
    price > 0.0 && stop > 0.0 && BeyondBreakeven(side, stop, entryPrice, settings.beOffset, PriceTolerance(c))
  }

  function NearestAllowedStop(side: Side, closePrice: real, c: SymbolConstraints): real {
    if side == Buy then closePrice - c.MinimumStopDistance() else closePrice + c.MinimumStopDistance()
  }

  /** A state waiting for break-even that sees a usable observation of its own, unprotected position. */
  ghost predicate WaitsUnprotected(state: ManagedPosition, position: BrokerPosition, tick: MarketTick,
                                   settings: ManagementSettings)
  {
    && state.phase == WaitingBE && state.pendingAction.None?
    && position.isFresh && tick.isFresh && position.present
    && IdentityError(state, position, settings.constraints).None?
    && tick.ClosingPrice(state.side) > 0.0
    && !AtBreakeven(state, position.brokerSl, settings)
  }

  /** A price on the losing side of another rounds to break-even only if the other does. */
  lemma RoundsCarriesOver(looser: real, tighter: real, side: Side, entryPrice: real, settings: ManagementSettings)
    requires if side == Buy then looser <= tighter else tighter <= looser
    requires tighter > 0.0
    requires RoundsToBreakeven(looser, side, entryPrice, settings)
    ensures RoundsToBreakeven(tighter, side, entryPrice, settings)
  {
    var c := settings.constraints;
    if side == Buy {
      RoundStopMonotone(looser, tighter, Buy, c.tickSize, DigitQuantum(c));
    } else {
      RoundStopMonotone(tighter, looser, Sell, c.tickSize, DigitQuantum(c));
      RoundStopBrackets(tighter, Sell, c.tickSize, DigitQuantum(c));
    }
  }

  lemma ClampedRoundsIff(state: ManagedPosition, closePrice: real, settings: ManagementSettings)
    requires RawBreakeven(state.side, state.entryPrice, settings.beOffset) > 0.0 && closePrice > 0.0
    ensures
      var c := settings.constraints;
      var rawBe := RawBreakeven(state.side, state.entryPrice, settings.beOffset);
      RoundsToBreakeven(ClampedTarget(rawBe, state.side, closePrice, c), state.side, state.entryPrice, settings) <==>
        && RoundsToBreakeven(rawBe, state.side, state.entryPrice, settings)
        && RoundsToBreakeven(NearestAllowedStop(state.side, closePrice, c), state.side, state.entryPrice, settings)
  {
    var rawBe := RawBreakeven(state.side, state.entryPrice, settings.beOffset);
    var nearest := NearestAllowedStop(state.side, closePrice, settings.constraints);
    var clamped := ClampedTarget(rawBe, state.side, closePrice, settings.constraints);
    if RoundsToBreakeven(clamped, state.side, state.entryPrice, settings) {
      RoundsCarriesOver(clamped, rawBe, state.side, state.entryPrice, settings);
      RoundsCarriesOver(clamped, nearest, state.side, state.entryPrice, settings);
    }
  }

  /** The gate itself, before its conditions are traced back to the market and the grid. */
  lemma GateOpensIff(state: ManagedPosition, position: BrokerPosition, closePrice: real, settings: ManagementSettings)
    requires closePrice > 0.0 && !AtBreakeven(state, position.brokerSl, settings)
    ensures
      var c := settings.constraints;
      var rawBe := RawBreakeven(state.side, state.entryPrice, settings.beOffset);
      var clamped := ClampedTarget(rawBe, state.side, closePrice, c);
      EvaluateWaitingBE(state, position, closePrice, settings).action.Some? <==>
        && RThresholdReached(state, ProfitR(state, closePrice), settings.beTriggerR, c)
        && rawBe > 0.0
        && RoundsToBreakeven(clamped, state.side, state.entryPrice, settings)
        && IsStrictlyMoreProtective(RoundStop(clamped, state.side, c.tickSize, DigitQuantum(c)), position.brokerSl,
                                    state.side, MinimumUpdate(settings), PriceTolerance(c))
  {
    hide RoundStop, RThresholdReached, ProfitR, IsStrictlyMoreProtective, PriceTolerance, DigitQuantum, ClampedTarget;
  }

  /**
   The break-even gate is exact: an action leaves it when, and only when, the trigger is reached, both
   break-even itself and the nearest stop the broker allows round to break-even, and the step is big enough.
   */
  lemma BreakevenSentIff(state: ManagedPosition, position: BrokerPosition, tick: MarketTick,
                         settings: ManagementSettings)
    requires WaitsUnprotected(state, position, tick, settings)
    ensures
      var c := settings.constraints;
      var closePrice := tick.ClosingPrice(state.side);
      var rawBe := RawBreakeven(state.side, state.entryPrice, settings.beOffset);
      var stop := RoundStop(ClampedTarget(rawBe, state.side, closePrice, c), state.side, c.tickSize, DigitQuantum(c));
      Evaluate(state, position, tick, settings).action.Some? <==>
        && RThresholdReached(state, ProfitR(state, closePrice), settings.beTriggerR, c)
        && RoundsToBreakeven(rawBe, state.side, state.entryPrice, settings)
        && RoundsToBreakeven(NearestAllowedStop(state.side, closePrice, c), state.side, state.entryPrice, settings)
        && IsStrictlyMoreProtective(stop, position.brokerSl, state.side,
                                    MinimumUpdate(settings), PriceTolerance(c))
  {
    var closePrice := tick.ClosingPrice(state.side);
    assert Evaluate(state, position, tick, settings) == EvaluateWaitingBE(state, position, closePrice, settings);
    GateOpensIff(state, position, closePrice, settings);
    if RawBreakeven(state.side, state.entryPrice, settings.beOffset) > 0.0 {
      ClampedRoundsIff(state, closePrice, settings);
    }
  }

  /** Break-even off the grid by more than the tolerance: no market move ever makes the machine send it. */
  lemma OffGridBreakevenIsNeverSent(state: ManagedPosition, position: BrokerPosition, tick: MarketTick,
                                    settings: ManagementSettings)
    requires !RoundsToBreakeven(RawBreakeven(state.side, state.entryPrice, settings.beOffset), state.side,
                                state.entryPrice, settings)
    ensures var action := Evaluate(state, position, tick, settings).action;
            action.Some? ==> action.value.reason != Breakeven
  {
    hide RoundStop, RThresholdReached, ProfitR, PriceTolerance, DigitQuantum, ClampedTarget, NormalizeStopTarget;
    var closePrice := tick.ClosingPrice(state.side);
    var resumed := if state.phase == Stale then Unstale(state) else state;
    var active := if resumed.phase == ErrorRetryable then LeaveBackoff(resumed) else resumed;
    var gated := ReenterBreakevenGate(active, position, settings);
    if closePrice > 0.0 && !AtBreakeven(gated, position.brokerSl, settings) {
      GateOpensIff(gated, position, closePrice, settings);
      if RawBreakeven(state.side, state.entryPrice, settings.beOffset) > 0.0 {
        ClampedRoundsIff(gated, closePrice, settings);
      }
    }
  }

  /** A break-even price on both grids always rounds to itself, so only the market can delay it. */
  lemma OnGridBreakevenIsRepresentable(side: Side, entryPrice: real, settings: ManagementSettings)
    requires var rawBe := RawBreakeven(side, entryPrice, settings.beOffset);
             rawBe > 0.0 && OnGrid(rawBe, settings.constraints.tickSize)
             && OnGrid(rawBe, DigitQuantum(settings.constraints))
    ensures RoundsToBreakeven(RawBreakeven(side, entryPrice, settings.beOffset), side, entryPrice, settings)
  {
    RoundStopFixesGridPoints(RawBreakeven(side, entryPrice, settings.beOffset), side,
                             settings.constraints.tickSize, DigitQuantum(settings.constraints));
  }

  /** The condition is needed: with a tick of 5 and an offset of 2, break-even 102 is refused at every price. */
  lemma OffGridBreakevenExample(tick: MarketTick)
    ensures var settings := SettingsData(ConstraintData(1.0, 5.0, 0, 0, 0), None, 1.0, 2.0, 2.0, 2.5, 1.5, 1, 3, 1.0, 30.0);
            var state := ManagedState(1, Buy, 100.0, 90.0, WaitingBE, None, None, None, 0, 0.0, None);
            var position := BrokerPosition(1, Some(Buy), 100.0, Some(90.0), None, true, true);
            Evaluate(state, position, tick, settings).action.None?
  {
    var settings: ManagementSettings :=
      SettingsData(ConstraintData(1.0, 5.0, 0, 0, 0), None, 1.0, 2.0, 2.0, 2.5, 1.5, 1, 3, 1.0, 30.0);
    var state: ManagedPosition := ManagedState(1, Buy, 100.0, 90.0, WaitingBE, None, None, None, 0, 0.0, None);
    var position := BrokerPosition(1, Some(Buy), 100.0, Some(90.0), None, true, true);
    FloorToIsGreatest(102.0, 5.0);
    assert Multiple(20, 5.0) == 100.0 && Multiple(21, 5.0) == 105.0;
    FloorToIsGreatest(FloorTo(102.0, 5.0), 1.0);
    assert RoundStop(102.0, Buy, 5.0, 1.0) <= 101.0 by {
      var k: int :| FloorTo(102.0, 5.0) == Multiple(k, 5.0);
      MultipleOrder(20, k, 5.0);
    }
    assert Pow10(0) == 1.0;
    OffGridBreakevenIsNeverSent(state, position, tick, settings);
  }
}
