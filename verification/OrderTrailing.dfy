/**
 What the triggers and the trail mean in prices: an R trigger is a price level, the trail follows the best
 price seen at the distance of its stage, and a trailing stop is sent exactly when that improves the broker's.
 */
module OrderTrailing {
  import opened Common
  import opened Grid
  import opened OrderManagement
  import opened StopNormalization
  import opened OrderActionSafety

  /** The price at which a position has gained `r` times its initial risk. */
  function PriceAtR(state: ManagedPosition, r: real): real {
    var gain := r * Abs(state.entryPrice - state.initialSl);
    if state.side == Buy then state.entryPrice + gain else state.entryPrice - gain
  }

  predicate AtOrBeyond(side: Side, price: real, level: real, tolerance: real) {
    if side == Buy then price >= level - tolerance else price <= level + tolerance
  }

  lemma QuotientsCompare(profit: real, tolerance: real, threshold: real, risk: GridStep)
    ensures profit / risk >= threshold - tolerance / risk <==> profit >= threshold * risk - tolerance
  {
    var p, t := profit / risk, tolerance / risk;
    DivMul(profit, risk);
    DivMul(tolerance, risk);
    Sums(threshold, t, risk);
    MulStrict(p, threshold - t, risk);
  }

  lemma Sums(a: real, b: real, c: real)
    ensures (a - b) * c == a * c - b * c
  {
  }

  /** Reaching an R trigger is the closing price reaching a level, up to the price tolerance. */
  lemma TriggerIsAPriceLevel(state: ManagedPosition, closePrice: real, threshold: real, c: SymbolConstraints)
    ensures RThresholdReached(state, ProfitR(state, closePrice), threshold, c)
       <==> AtOrBeyond(state.side, closePrice, PriceAtR(state, threshold), PriceTolerance(c))
  {
    hide PriceTolerance;
    var risk := Abs(state.entryPrice - state.initialSl);
    var profit := if state.side == Buy then closePrice - state.entryPrice else state.entryPrice - closePrice;
    QuotientsCompare(profit, PriceTolerance(c), threshold, risk);
  }

  /** The best price is the better of the price now and the best so far. */
  lemma ExtremeIsTheBest(side: Side, previous: Option<real>, closePrice: real)
    requires closePrice > 0.0
    ensures var best := NewExtreme(side, previous, closePrice);
            && (best == closePrice || (IsPositive(previous) && best == previous.value))
            && AtOrBeyond(side, best, closePrice, 0.0)
            && (IsPositive(previous) ==> AtOrBeyond(side, best, previous.value, 0.0))
  {
  }

  /** A trailing machine that sees a usable observation of its own position, protected at break-even. */
  ghost predicate Trails(state: ManagedPosition, position: BrokerPosition, tick: MarketTick, settings: ManagementSettings) {
    && (state.phase == TrailWide || state.phase == TrailTight) && state.pendingAction.None?
    && position.isFresh && tick.isFresh && position.present
    && IdentityError(state, position, settings.constraints).None?
    && tick.ClosingPrice(state.side) > 0.0
    && AtBreakeven(state, position.brokerSl, settings)
  }

  /** The stage after an observation: tight once the tight trigger's price has been reached, and no operation of the trail widens it again. */
  function StageAt(state: ManagedPosition, closePrice: real, settings: ManagementSettings): Phase {
    if state.phase == TrailTight
       || AtOrBeyond(state.side, closePrice, PriceAtR(state, settings.tightTriggerR), PriceTolerance(settings.constraints))
    then TrailTight else TrailWide
  }

  /** The stop one stage's distance behind the best price, held back to the broker's minimum distance. */
  function TrailTarget(state: ManagedPosition, closePrice: real, settings: ManagementSettings): real
    requires settings.atr.Some?
  {
    var best := NewExtreme(state.side, state.extremePrice, closePrice);
    ClampedTarget(RawTrail(state.side, best, StageAt(state, closePrice, settings), settings), state.side, closePrice,
                  settings.constraints)
  }

  lemma TrailingEvaluation(state: ManagedPosition, position: BrokerPosition, tick: MarketTick, settings: ManagementSettings)
    requires Trails(state, position, tick, settings)
    ensures Evaluate(state, position, tick, settings)
         == EvaluateTrailing(state, position, tick.ClosingPrice(state.side), settings)
  {
    hide EvaluateTrailing, PriceTolerance;
  }

  lemma StageReached(state: ManagedPosition, closePrice: real, settings: ManagementSettings)
    requires state.phase == TrailWide || state.phase == TrailTight
    ensures StageAt(state, closePrice, settings)
         == if state.phase == TrailWide
               && RThresholdReached(state, ProfitR(state, closePrice), settings.tightTriggerR, settings.constraints)
            then TrailTight else state.phase
  {
    hide RThresholdReached, ProfitR, AtOrBeyond;
    TriggerIsAPriceLevel(state, closePrice, settings.tightTriggerR, settings.constraints);
  }

  /** The stop that is proposed if any is: the trail target on the grid. */
  function TrailStop(state: ManagedPosition, closePrice: real, settings: ManagementSettings): real
    requires settings.atr.Some?
  {
    RoundStop(TrailTarget(state, closePrice, settings), state.side, settings.constraints.tickSize,
              DigitQuantum(settings.constraints))
  }

  /** Whether the trail yields a stop at all, and one that improves the broker's by a whole update. */
  predicate TrailImproves(state: ManagedPosition, brokerSl: Option<real>, closePrice: real, settings: ManagementSettings) {
    var c := settings.constraints;
    && settings.atr.Some?
    && RawTrail(state.side, NewExtreme(state.side, state.extremePrice, closePrice),
                StageAt(state, closePrice, settings), settings) > 0.0
    && TrailTarget(state, closePrice, settings) > 0.0
    && IsStrictlyMoreProtective(TrailStop(state, closePrice, settings), brokerSl, state.side,
                                MinimumUpdate(settings), PriceTolerance(c))
  }

  /**
   The trail is exact.  An observation moves the machine to its stage and best price; it sends a stop when, and
   only when, the ATR is known and the trail target, rounded, is positive and improves the broker's stop enough.
   */
  lemma TrailingSentIff(state: ManagedPosition, position: BrokerPosition, tick: MarketTick, settings: ManagementSettings)
    requires Trails(state, position, tick, settings)
    ensures
      var closePrice := tick.ClosingPrice(state.side);
      var d := Evaluate(state, position, tick, settings);
      var stage := StageAt(state, closePrice, settings);
      && d.state == state.(phase := stage, pendingAction := d.action,
                           extremePrice := Some(NewExtreme(state.side, state.extremePrice, closePrice)))
      && (d.action.Some? <==> TrailImproves(state, position.brokerSl, closePrice, settings))
      && (d.action.Some? ==>
            && d.action.value.reason == (if stage == TrailTight then TightTrail else WideTrail)
            && d.action.value.targetSl == TrailStop(state, closePrice, settings))
  {
    hide Evaluate, StageAt, RThresholdReached, ProfitR, PriceAtR, AtOrBeyond, NewExtreme, ClampedTarget, RoundStop, RawTrail,
      IsStrictlyMoreProtective, PriceTolerance, DigitQuantum, AtBreakeven, IdentityError;
    TrailingEvaluation(state, position, tick, settings);
    StageReached(state, tick.ClosingPrice(state.side), settings);
  }

  /** A stop that is sent trails the best price by the stage's ATR distance, give or take a tick and a quantum. */
  lemma TrailFollowsBestPrice(state: ManagedPosition, position: BrokerPosition, tick: MarketTick, settings: ManagementSettings)
    requires Trails(state, position, tick, settings) && Evaluate(state, position, tick, settings).action.Some?
    ensures
      var c := settings.constraints;
      var closePrice := tick.ClosingPrice(state.side);
      var stop := Evaluate(state, position, tick, settings).action.value.targetSl;
      var trail := RawTrail(state.side, NewExtreme(state.side, state.extremePrice, closePrice),
                            StageAt(state, closePrice, settings), settings);
      var nearest := NearestAllowedStop(state.side, closePrice, c);
      var slack := c.tickSize + DigitQuantum(c);
      && AtOrBeyond(state.side, trail, stop, 0.0) && AtOrBeyond(state.side, nearest, stop, 0.0)
      && (AtOrBeyond(state.side, stop, trail, slack) || AtOrBeyond(state.side, stop, nearest, slack))
  {
    hide Evaluate, RoundStop, RawTrail, NewExtreme, StageAt, PriceTolerance, DigitQuantum, IsStrictlyMoreProtective;
    var closePrice := tick.ClosingPrice(state.side);
    TrailingSentIff(state, position, tick, settings);
    var c := settings.constraints;
    RoundStopBrackets(TrailTarget(state, closePrice, settings), state.side, c.tickSize, DigitQuantum(c));
  }

  /** A better price never loosens the trail of one stage: the target moves only in the protective direction. */
  lemma TrailTargetAdvances(state: ManagedPosition, worse: real, better: real, settings: ManagementSettings)
    requires settings.atr.Some? && 0.0 < worse && 0.0 < better && AtOrBeyond(state.side, better, worse, 0.0)
    requires StageAt(state, worse, settings) == StageAt(state, better, settings)
    ensures AtOrBeyond(state.side, TrailTarget(state, better, settings), TrailTarget(state, worse, settings), 0.0)
  {
    hide StageAt;
  }
}
