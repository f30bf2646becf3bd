/**
 The one stop that a break-even request can carry.  The tolerance is much finer than the digit quantum, so all
 grid prices that pass for break-even are one and the same: break-even itself, rounded away from the price.
 */
module OrderBreakeven {
  import opened Common
  import opened Grid
  import opened OrderManagement
  import opened StopNormalization
  import opened OrderActionSafety

  /** Break-even on the broker's grid. */
  function BreakevenStop(side: Side, entryPrice: real, beOffset: real, c: SymbolConstraints): real {
    RoundStop(RawBreakeven(side, entryPrice, beOffset), side, c.tickSize, DigitQuantum(c))
  }

  /** How far rounding takes it away from break-even. */
  function BreakevenGap(side: Side, entryPrice: real, beOffset: real, c: SymbolConstraints): real {
    Abs(RawBreakeven(side, entryPrice, beOffset) - BreakevenStop(side, entryPrice, beOffset, c))
  }

  /** Rounding takes the stop to the losing side, by the gap. */
  lemma BreakevenStopIsShort(side: Side, entryPrice: real, beOffset: real, c: SymbolConstraints)
    ensures var rawBe, gap := RawBreakeven(side, entryPrice, beOffset), BreakevenGap(side, entryPrice, beOffset, c);
            && gap >= 0.0
            && BreakevenStop(side, entryPrice, beOffset, c) == if side == Buy then rawBe - gap else rawBe + gap
  {
    RoundStopBrackets(RawBreakeven(side, entryPrice, beOffset), side, c.tickSize, DigitQuantum(c));
    hide RoundStop;
  }

  /** Prices are quoted coarsely enough for the tolerance, which never falls below 1e-12, to tell them apart. */
  predicate Distinguishable(c: SymbolConstraints) {
    c.digits <= 11
  }

  /** Some market makes the machine ask for break-even; a SELL stop also needs room between price zero and itself. */
  predicate Sendable(side: Side, entryPrice: real, beOffset: real, c: SymbolConstraints) {
    var stop := BreakevenStop(side, entryPrice, beOffset, c);
    && RawBreakeven(side, entryPrice, beOffset) > 0.0 && stop > 0.0
    && BreakevenGap(side, entryPrice, beOffset, c) <= PriceTolerance(c)
    && (side == Sell ==> c.MinimumStopDistance() < FloorTo(stop, c.tickSize))
  }

  lemma {:induction false} Pow10Monotone(a: nat, b: nat)
    requires a <= b
    ensures Pow10(a) <= Pow10(b)
    decreases b
  {
    if a < b {
      Pow10Monotone(a, b - 1);
    }
  }

  lemma QuantumIsCoarse(c: SymbolConstraints)
    requires Distinguishable(c)
    ensures DigitQuantum(c) >= 0.00000000001
  {
    Pow10Monotone(c.digits, 11);
    assert Pow10(11) == 100000000000.0 by {
      assert Pow10(4) == 10000.0;
      assert Pow10(8) == 100000000.0;
    }
    var p := Pow10(c.digits);
    hide Pow10;
    DivMul(1.0, p);
    assert 1.0 / p * p == 1.0;
    MulStrict(1.0 / p, 0.00000000001, p);
  }

  lemma ToleranceIsFine(c: SymbolConstraints)
    requires Distinguishable(c)
    ensures 2.0 * PriceTolerance(c) < DigitQuantum(c)
  {
    QuantumIsCoarse(c);
    hide DigitQuantum;
  }

  lemma RoundStopIsOnQuantum(price: real, side: Side, tick: GridStep, quantum: GridStep)
    ensures OnGrid(RoundStop(price, side, tick, quantum), quantum)
  {
    FloorToIsGreatest(FloorTo(price, tick), quantum);
    CeilToIsLeast(CeilTo(price, tick), quantum);
  }

  /** Grid prices that are within the tolerance of each other are equal. */
  lemma CloseGridPricesAreEqual(a: real, b: real, c: SymbolConstraints)
    requires Distinguishable(c) && OnGrid(a, DigitQuantum(c)) && OnGrid(b, DigitQuantum(c))
    requires Abs(a - b) <= 2.0 * PriceTolerance(c)
    ensures a == b
  {
    ToleranceIsFine(c);
    if a < b {
      GridPointsAreApart(a, b, DigitQuantum(c));
    } else if b < a {
      GridPointsAreApart(b, a, DigitQuantum(c));
    }
  }

  /** Any target on the losing side of break-even that still rounds to break-even rounds to that one stop. */
  lemma OneBreakevenStop(price: real, side: Side, entryPrice: real, settings: ManagementSettings)
    requires Distinguishable(settings.constraints) && RoundsToBreakeven(price, side, entryPrice, settings)
    requires var rawBe := RawBreakeven(side, entryPrice, settings.beOffset);
             rawBe > 0.0 && if side == Buy then price <= rawBe else price >= rawBe
    ensures RoundStop(price, side, settings.constraints.tickSize, DigitQuantum(settings.constraints))
         == BreakevenStop(side, entryPrice, settings.beOffset, settings.constraints)
    ensures BreakevenGap(side, entryPrice, settings.beOffset, settings.constraints)
         <= PriceTolerance(settings.constraints)
  {
    var c := settings.constraints;
    var tick: GridStep, quantum: GridStep := c.tickSize, DigitQuantum(c);
    var rawBe := RawBreakeven(side, entryPrice, settings.beOffset);
    if side == Buy {
      RoundStopMonotone(price, rawBe, side, tick, quantum);
    } else {
      RoundStopMonotone(rawBe, price, side, tick, quantum);
    }
    RoundStopBrackets(rawBe, side, tick, quantum);
    RoundStopIsOnQuantum(price, side, tick, quantum);
    RoundStopIsOnQuantum(rawBe, side, tick, quantum);
    hide RoundStop, PriceTolerance, DigitQuantum;
    CloseGridPricesAreEqual(RoundStop(price, side, tick, quantum), RoundStop(rawBe, side, tick, quantum), c);
  }

  /** A SELL stop is on the way from a positive price: its distance leaves room below the stop's own tick. */
  lemma RoomForSellStop(price: real, tick: GridStep, quantum: GridStep)
    ensures price <= FloorTo(RoundStop(price, Sell, tick, quantum), tick)
  {
    hide FloorTo, CeilTo;
    var ticked := CeilTo(price, tick);
    CeilToIsLeast(price, tick);
    CeilToIsLeast(ticked, quantum);
    FloorToIsGreatest(CeilTo(ticked, quantum), tick);
    var k: int :| ticked == Multiple(k, tick);
    assert Multiple(k, tick) <= FloorTo(CeilTo(ticked, quantum), tick);
  }

  /** What a proposed target is: on the digit grid, and for break-even the clamped target rounded. */
  ghost predicate TargetForm(a: DesiredAction, entryPrice: real, closePrice: real, settings: ManagementSettings) {
    var c := settings.constraints;
    var rawBe := RawBreakeven(a.side, entryPrice, settings.beOffset);
    && OnGrid(a.targetSl, DigitQuantum(c))
    && (a.reason == Breakeven ==>
          && rawBe > 0.0 && ClampedTarget(rawBe, a.side, closePrice, c) > 0.0
          && a.targetSl == RoundStop(ClampedTarget(rawBe, a.side, closePrice, c), a.side, c.tickSize, DigitQuantum(c)))
  }

  lemma BreakevenTargetForm(state: ManagedPosition, position: BrokerPosition, closePrice: real, settings: ManagementSettings)
    requires EvaluateWaitingBE(state, position, closePrice, settings).action.Some?
    ensures TargetForm(EvaluateWaitingBE(state, position, closePrice, settings).action.value, state.entryPrice,
                       closePrice, settings)
  {
    hide RoundStop, RThresholdReached, ProfitR, PriceTolerance, DigitQuantum, ClampedTarget, OnGrid;
    var c := settings.constraints;
    RoundStopIsOnQuantum(ClampedTarget(RawBreakeven(state.side, state.entryPrice, settings.beOffset), state.side,
                                       closePrice, c), state.side, c.tickSize, DigitQuantum(c));
  }

  lemma TrailingTargetForm(state: ManagedPosition, position: BrokerPosition, closePrice: real, settings: ManagementSettings)
    requires EvaluateTrailing(state, position, closePrice, settings).action.Some?
    ensures TargetForm(EvaluateTrailing(state, position, closePrice, settings).action.value, state.entryPrice,
                       closePrice, settings)
  {
    hide RoundStop, RThresholdReached, ProfitR, PriceTolerance, DigitQuantum, ClampedTarget, OnGrid;
    var c := settings.constraints;
    var a := EvaluateTrailing(state, position, closePrice, settings).action.value;
    var extreme := NewExtreme(state.side, state.extremePrice, closePrice);
    RoundStopIsOnQuantum(ClampedTarget(RawTrail(state.side, extreme, a.sourcePhase, settings), state.side,
                                       closePrice, c), state.side, c.tickSize, DigitQuantum(c));
  }

  lemma EmittedTargetForm(state: ManagedPosition, position: BrokerPosition, tick: MarketTick, settings: ManagementSettings)
    requires Evaluate(state, position, tick, settings).action.Some?
    ensures TargetForm(Evaluate(state, position, tick, settings).action.value, state.entryPrice,
                       tick.ClosingPrice(state.side), settings)
    ensures tick.ClosingPrice(state.side) > 0.0
  {
    hide RoundStop, RThresholdReached, ProfitR, PriceTolerance, DigitQuantum, ClampedTarget, NormalizeStopTarget, TargetForm;
    var closePrice := tick.ClosingPrice(state.side);
    var resumed := if state.phase == Stale then Unstale(state) else state;
    var active := if resumed.phase == ErrorRetryable then LeaveBackoff(resumed) else resumed;
    var gated := ReenterBreakevenGate(active, position, settings);
    if gated.phase == WaitingBE {
      BreakevenTargetForm(gated, position, closePrice, settings);
    } else {
      TrailingTargetForm(gated, position, closePrice, settings);
    }
  }

  /**
   Every stop the machine ever asks for lies strictly beyond break-even, except for one: break-even itself,
   rounded, and that only if it is sendable.
   */
  lemma EmittedTargetIsBeyondOrBreakeven(state: ManagedPosition, position: BrokerPosition, tick: MarketTick,
                                         settings: ManagementSettings)
    requires Evaluate(state, position, tick, settings).action.Some?
    requires Distinguishable(settings.constraints)
    ensures var a := Evaluate(state, position, tick, settings).action.value;
            || StrictlyBeyondBreakeven(a.side, a.targetSl, state.entryPrice, settings.beOffset)
            || (Sendable(a.side, state.entryPrice, settings.beOffset, settings.constraints)
                && a.targetSl == BreakevenStop(a.side, state.entryPrice, settings.beOffset, settings.constraints))
  {
    var a := Evaluate(state, position, tick, settings).action.value;
    EmittedActionIsSafe(state, position, tick, settings);
    EmittedTargetForm(state, position, tick, settings);
    hide Evaluate, RoundStop, PriceTolerance, DigitQuantum, OnGrid;
    if a.reason == Breakeven {
      var c := settings.constraints;
      var clamped := ClampedTarget(RawBreakeven(a.side, state.entryPrice, settings.beOffset), a.side,
                                   tick.ClosingPrice(state.side), c);
      OneBreakevenStop(clamped, a.side, state.entryPrice, settings);
      if a.side == Sell {
        RoomForSellStop(clamped, c.tickSize, DigitQuantum(c));
      }
    }
  }
}
