/**
 The decisions of the machine said in prices and fields alone: what it takes to be managed and to be paused, and
 for an own, fresh and priced observation what each phase answers and when a stop is asked for.
 */
module OrderOnPrices {
  import opened Common
  import opened Grid
  import opened OrderManagement
  import opened OrderActionSafety
  import opened OrderInvariant
  import opened OrderTrailing
  import opened OrderConfirmation

  // ---------- user operations ----------

  /** A position can be managed exactly if its prices make sense for its side; it then waits for break-even. */
  lemma StartIff(positionId: int, side: Side, entryPrice: real, initialSl: real)
    ensures StartManagement(positionId, side, entryPrice, initialSl).Ok?
       <==> positionId > 0 && entryPrice > 0.0 && initialSl > 0.0
            && (if side == Buy then initialSl < entryPrice else initialSl > entryPrice)
    ensures StartManagement(positionId, side, entryPrice, initialSl).Ok? ==>
              StartManagement(positionId, side, entryPrice, initialSl).value
              == ManagedState(positionId, side, entryPrice, initialSl, WaitingBE, None, None, None, 0, 0.0, None)
  {
  }

  /** Pausing is refused only while a request is pending, and remembers the phase; resuming goes back to it. */
  lemma PauseMeaning(state: ManagedPosition)
    ensures var ended := state.phase == Closed || state.phase == Unmanaged;
            && (Pause(state).Err? <==> !ended && state.pendingAction.Some?)
            && (Pause(state).Ok? ==>
                  Pause(state).value
                  == if ended || state.phase == Paused then state
                     else state.(phase := Paused, resumePhase := Some(state.phase)))
    ensures Resume(state)
         == if state.phase != Paused then state
            else state.(phase := if state.resumePhase.Some? then state.resumePhase.value else WaitingBE,
                        resumePhase := None, lastError := None)
  {
  }

  // ---------- prices ----------

  /** The distance kept is the larger of the broker's stop and freeze levels. */
  lemma MinimumDistanceMeaning(c: SymbolConstraints)
    ensures var distance, stops, freeze := c.MinimumStopDistance(), c.stopsLevelPoints as real * c.point,
                                           c.freezeLevelPoints as real * c.point;
            distance >= stops && distance >= freeze && (distance == stops || distance == freeze)
  {
    LevelsOrder(c.stopsLevelPoints as real, c.freezeLevelPoints as real, c.point);
    LevelsOrder(c.freezeLevelPoints as real, c.stopsLevelPoints as real, c.point);
  }

  lemma LevelsOrder(a: real, b: real, point: real)
    requires point > 0.0
    ensures a <= b ==> a * point <= b * point
  {
    if a <= b {
      MulMonotone(a, b, point);
    }
  }

  function Offset(side: Side, price: real, gain: real): real {
    if side == Buy then price + gain else price - gain
  }

  /** The worse of two stops for the side, which is the one farther from the price. */
  function Farther(side: Side, a: real, b: real): real {
    if side == Buy then (if a < b then a else b) else if a > b then a else b
  }

  /** The stop that a target becomes: held back to the broker's distance, then rounded away from the price. */
  function StopFor(side: Side, target: real, closePrice: real, c: SymbolConstraints): real {
    var held := Farther(side, target, Offset(side, closePrice, -c.MinimumStopDistance()));
    if side == Buy then FloorTo(FloorTo(held, c.tickSize), DigitQuantum(c))
    else CeilTo(CeilTo(held, c.tickSize), DigitQuantum(c))
  }

  predicate CanBeNormalized(side: Side, target: real, closePrice: real, c: SymbolConstraints) {
    target > 0.0 && Farther(side, target, Offset(side, closePrice, -c.MinimumStopDistance())) > 0.0
  }

  lemma NormalizeMeaning(side: Side, target: real, closePrice: real, c: SymbolConstraints)
    requires closePrice > 0.0
    ensures NormalizeStopTarget(target, side, closePrice, c).Ok? <==> CanBeNormalized(side, target, closePrice, c)
    ensures NormalizeStopTarget(target, side, closePrice, c).Ok? ==>
              NormalizeStopTarget(target, side, closePrice, c).value == StopFor(side, target, closePrice, c)
  {
    hide FloorTo, CeilTo, DigitQuantum;
  }

  /** The stop improves the broker's by whole updates and by more than the tolerance; a missing one is always improved. */
  predicate StopImproves(side: Side, stop: real, brokerSl: Option<real>, update: real, tolerance: real) {
    brokerSl.Some? && brokerSl.value > 0.0 ==>
      var step := if side == Buy then stop - brokerSl.value else brokerSl.value - stop;
      step >= update - tolerance && step > tolerance
  }

  lemma ImprovementMeaning(side: Side, stop: real, brokerSl: Option<real>, update: real, tolerance: real)
    requires update >= 0.0
    ensures IsStrictlyMoreProtective(stop, brokerSl, side, update, tolerance)
         == StopImproves(side, stop, brokerSl, update, tolerance)
  {
  }

  /** The least step worth a request is so many ticks. */
  lemma UpdateMeaning(settings: ManagementSettings)
    ensures MinimumUpdate(settings) == UpdateStep(settings) >= 0.0
  {
    LevelsOrder(0.0, settings.minimumUpdateTicks as real, settings.constraints.tickSize);
  }

  function UpdateStep(settings: ManagementSettings): real {
    settings.minimumUpdateTicks as real * settings.constraints.tickSize
  }

  /** The broker's stop protects break-even: at entry plus offset for a BUY, entry minus offset for a SELL. */
  predicate ProtectedAtBreakeven(m: ManagedPosition, brokerSl: Option<real>, settings: ManagementSettings) {
    StopConfirmed(brokerSl, Offset(m.side, m.entryPrice, settings.beOffset), m.side, PriceTolerance(settings.constraints))
  }

  lemma BreakevenMeaning(m: ManagedPosition, brokerSl: Option<real>, settings: ManagementSettings)
    ensures AtBreakeven(m, brokerSl, settings) == ProtectedAtBreakeven(m, brokerSl, settings)
    ensures RawBreakeven(m.side, m.entryPrice, settings.beOffset) == Offset(m.side, m.entryPrice, settings.beOffset)
  {
    hide PriceTolerance;
  }

  // ---------- waiting for break-even ----------

  function Best(m: ManagedPosition, closePrice: real): real {
    if m.extremePrice.None? || m.extremePrice.value <= 0.0 then closePrice
    else if m.side == Buy then (if m.extremePrice.value > closePrice then m.extremePrice.value else closePrice)
    else if m.extremePrice.value < closePrice then m.extremePrice.value else closePrice
  }

  /** The action asked for: this stop, for this position, keeping the take-profit and naming the stop that was seen. */
  function Asking(m: ManagedPosition, position: BrokerPosition, reason: ActionReason, source: Phase, stop: real,
                  closePrice: real, settings: ManagementSettings): DesiredAction
  {
    DesiredAction(reason, m.positionId, m.side, stop, position.brokerTp, position.brokerSl, source, closePrice,
                  settings.constraints.tickSize)
  }

  /** What the break-even gate answers, reason by reason. */
  function GateAnswer(m: ManagedPosition, position: BrokerPosition, closePrice: real, settings: ManagementSettings)
    : (ManagedPosition, Option<DesiredAction>, DecisionReason)
  {
    var c, breakeven := settings.constraints, Offset(m.side, m.entryPrice, settings.beOffset);
    var tolerance, stop := PriceTolerance(c), StopFor(m.side, breakeven, closePrice, c);
    if ProtectedAtBreakeven(m, position.brokerSl, settings) then
      (m.(phase := BEActive, extremePrice := Some(Best(m, closePrice)), retryCount := 0, retryNotBefore := 0.0,
          lastError := None), None, BreakevenReconciledFromBroker)
    else if !AtOrBeyond(m.side, closePrice, PriceAtR(m, settings.beTriggerR), tolerance) then
      (m, None, WaitingForBreakevenTrigger)
    else if !CanBeNormalized(m.side, breakeven, closePrice, c) || !StopConfirmed(Some(stop), breakeven, m.side, tolerance) then
      (m, None, BreakevenBlockedByConstraints)
    else if !StopImproves(m.side, stop, position.brokerSl, UpdateStep(settings), tolerance)
    then (m, None, BrokerStopAlreadyMoreProtective)
    else
      var action := Asking(m, position, Breakeven, WaitingBE, stop, closePrice, settings);
      (m.(extremePrice := Some(Best(m, closePrice)), pendingAction := Some(action)), Some(action), BreakevenActionRequired)
  }

  predicate Answers(d: Decision, answer: (ManagedPosition, Option<DesiredAction>, DecisionReason), m: ManagedPosition,
                    closePrice: real)
  {
    d.state == answer.0 && d.action == answer.1 && d.reason == answer.2 && d.closePrice == Some(closePrice)
  }

  lemma GateMeaning(m: ManagedPosition, position: BrokerPosition, closePrice: real, settings: ManagementSettings)
    requires closePrice > 0.0
    ensures Answers(EvaluateWaitingBE(m, position, closePrice, settings), GateAnswer(m, position, closePrice, settings), m,
                    closePrice)
  {
    hide AtBreakeven, ProtectedAtBreakeven, RThresholdReached, ProfitR, PriceAtR, AtOrBeyond, NormalizeStopTarget, StopFor,
      CanBeNormalized, IsStrictlyMoreProtective, StopImproves, PriceTolerance, RawBreakeven, Offset, MinimumUpdate,
      UpdateStep;
    var c, breakeven := settings.constraints, Offset(m.side, m.entryPrice, settings.beOffset);
    BreakevenMeaning(m, position.brokerSl, settings);
    BestMeaning(m, closePrice);
    TriggerIsAPriceLevel(m, closePrice, settings.beTriggerR, c);
    NormalizeMeaning(m.side, breakeven, closePrice, c);
    UpdateMeaning(settings);
    ImprovementMeaning(m.side, StopFor(m.side, breakeven, closePrice, c), position.brokerSl, UpdateStep(settings),
                       PriceTolerance(c));
  }

  // ---------- trailing ----------

  /** What the trail answers, reason by reason. */
  function TrailAnswer(m: ManagedPosition, position: BrokerPosition, closePrice: real, settings: ManagementSettings)
    : (ManagedPosition, Option<DesiredAction>, DecisionReason)
  {
    var c := settings.constraints;
    var tolerance, best := PriceTolerance(c), Best(m, closePrice);
    var tight := m.phase == TrailTight || AtOrBeyond(m.side, closePrice, PriceAtR(m, settings.tightTriggerR), tolerance);
    var w := m.(phase := if tight then TrailTight else TrailWide, extremePrice := Some(best));
    if settings.atr.None? then (w, None, AtrUnavailable)
    else
      var target := Offset(m.side, best, -TrailWidth(tight, settings));
      var stop := StopFor(m.side, target, closePrice, c);
      if !CanBeNormalized(m.side, target, closePrice, c) then (w, None, TrailingTargetInvalid)
      else if !StopImproves(m.side, stop, position.brokerSl, UpdateStep(settings), tolerance)
      then (w, None, NoTighterStopAvailable)
      else
        var action := Asking(m, position, if tight then TightTrail else WideTrail, w.phase, stop, closePrice, settings);
        (w.(pendingAction := Some(action)), Some(action), TrailingActionRequired)
  }

  lemma BestMeaning(m: ManagedPosition, closePrice: real)
    ensures NewExtreme(m.side, m.extremePrice, closePrice) == Best(m, closePrice)
  {
  }

  function TrailWidth(tight: bool, settings: ManagementSettings): real
    requires settings.atr.Some?
  {
    Times(settings.atr.value, if tight then settings.tightAtrMultiplier else settings.wideAtrMultiplier)
  }

  /** The trail lies behind the best price by the ATR times the multiplier of the stage. */
  lemma RawTrailMeaning(side: Side, best: real, phase: Phase, settings: ManagementSettings)
    requires settings.atr.Some?
    ensures RawTrail(side, best, phase, settings) == Offset(side, best, -TrailWidth(phase == TrailTight, settings))
  {
  }

  lemma TrailMeaning(m: ManagedPosition, position: BrokerPosition, closePrice: real, settings: ManagementSettings)
    requires closePrice > 0.0 && (m.phase == TrailWide || m.phase == TrailTight)
    ensures Answers(EvaluateTrailing(m, position, closePrice, settings), TrailAnswer(m, position, closePrice, settings), m,
                    closePrice)
  {
    hide RThresholdReached, ProfitR, PriceAtR, AtOrBeyond, NormalizeStopTarget, StopFor, CanBeNormalized, RawTrail, TrailWidth,
      IsStrictlyMoreProtective, StopImproves, PriceTolerance, Offset, Best, NewExtreme, MinimumUpdate, UpdateStep;
    var c, best := settings.constraints, Best(m, closePrice);
    BestMeaning(m, closePrice);
    TriggerIsAPriceLevel(m, closePrice, settings.tightTriggerR, c);
    if settings.atr.Some? {
      var tight := m.phase == TrailTight || AtOrBeyond(m.side, closePrice, PriceAtR(m, settings.tightTriggerR), PriceTolerance(c));
      var target := Offset(m.side, best, -TrailWidth(tight, settings));
      RawTrailMeaning(m.side, best, if tight then TrailTight else TrailWide, settings);
      NormalizeMeaning(m.side, target, closePrice, c);
      UpdateMeaning(settings);
      ImprovementMeaning(m.side, StopFor(m.side, target, closePrice, c), position.brokerSl, UpdateStep(settings),
                         PriceTolerance(c));
    }
  }

  // ---------- phase by phase ----------

  /** A protected phase arms the trail, trails, or without protection goes back to the gate; the gate is the gate. */
  function LiveAnswer(m: ManagedPosition, position: BrokerPosition, closePrice: real, settings: ManagementSettings)
    : (ManagedPosition, Option<DesiredAction>, DecisionReason)
  {
    if m.phase == WaitingBE then GateAnswer(m, position, closePrice, settings)
    else if !ProtectedAtBreakeven(m, position.brokerSl, settings) then
      GateAnswer(m.(phase := WaitingBE, resumePhase := None, lastError := Some(BrokerSlBelowBreakeven)), position, closePrice,
                 settings)
    else if m.phase == BEActive then
      var tight := AtOrBeyond(m.side, closePrice, PriceAtR(m, settings.tightTriggerR), PriceTolerance(settings.constraints));
      (m.(phase := if tight then TrailTight else TrailWide, extremePrice := Some(Best(m, closePrice)), retryCount := 0,
          retryNotBefore := 0.0, lastError := None), None, TrailingArmed)
    else TrailAnswer(m, position, closePrice, settings)
  }

  /** A pending action is settled by the snapshot or waited for; only without one does the phase decide. */
  function ActiveAnswer(m: ManagedPosition, position: BrokerPosition, closePrice: real, settings: ManagementSettings)
    : (ManagedPosition, Option<DesiredAction>, DecisionReason)
  {
    if m.pendingAction.None? then LiveAnswer(m, position, closePrice, settings)
    else
      var action, tolerance := m.pendingAction.value, PriceTolerance(settings.constraints);
      if StopConfirmed(position.brokerSl, action.targetSl, action.side, tolerance)
         && TakeProfitKept(position.brokerTp, action.preserveTp, tolerance)
      then (ConfirmedState(m, action), None, PendingActionReconciled)
      else (m, None, ActionAwaitingConfirmation)
  }

  lemma ActiveMeaning(m: ManagedPosition, position: BrokerPosition, closePrice: real, settings: ManagementSettings)
    requires closePrice > 0.0 && (m.phase == WaitingBE || IsProtectedPhase(m.phase))
    ensures Answers(EvaluateActive(m, position, closePrice, settings), ActiveAnswer(m, position, closePrice, settings), m,
                    closePrice)
  {
    var gated := ReenterBreakevenGate(m, position, settings);
    BreakevenMeaning(m, position.brokerSl, settings);
    TriggerIsAPriceLevel(m, closePrice, settings.tightTriggerR, settings.constraints);
    GateMeaning(gated, position, closePrice, settings);
    if m.phase == TrailWide || m.phase == TrailTight {
      TrailMeaning(m, position, closePrice, settings);
    }
    if m.pendingAction.Some? {
      ReflectedMeaning(m.pendingAction.value, position, settings.constraints);
    }
    hide EvaluateWaitingBE, EvaluateTrailing, GateAnswer, TrailAnswer, RThresholdReached, ProfitR, PriceAtR, AtOrBeyond,
      PriceTolerance, AtBreakeven, ProtectedAtBreakeven, ActionIsReflected, StopConfirmed, TakeProfitKept;
  }

  /** An own, fresh and priced observation of a present position. */
  predicate Usable(m: ManagedPosition, position: BrokerPosition, tick: MarketTick, settings: ManagementSettings) {
    position.isFresh && tick.isFresh && position.present
    && IdentityError(m, position, settings.constraints).None? && tick.ClosingPrice(m.side) > 0.0
  }

  /** The closing price is the bid for a BUY and the ask for a SELL. */
  lemma ClosingPriceMeaning(tick: MarketTick)
    ensures tick.ClosingPrice(Buy) == tick.bid && tick.ClosingPrice(Sell) == tick.ask
  {
  }

  lemma LivePhaseMeaning(m: ManagedPosition, position: BrokerPosition, tick: MarketTick, settings: ManagementSettings)
    requires Usable(m, position, tick, settings) && (m.phase == WaitingBE || IsProtectedPhase(m.phase))
    ensures var closePrice := tick.ClosingPrice(m.side);
            Answers(Evaluate(m, position, tick, settings), ActiveAnswer(m, position, closePrice, settings), m, closePrice)
  {
    hide EvaluateActive, ActiveAnswer, IdentityError;
    ActiveMeaning(m, position, tick.ClosingPrice(m.side), settings);
  }

  /** A backoff gives up once the retries are used up, waits for its time, and then goes on as the phase it came from. */
  lemma BackoffMeaning(m: ManagedPosition, position: BrokerPosition, tick: MarketTick, settings: ManagementSettings)
    requires Usable(m, position, tick, settings) && m.phase == ErrorRetryable
    requires m.resumePhase.Some? ==> m.resumePhase.value == WaitingBE || IsProtectedPhase(m.resumePhase.value)
    ensures var d, closePrice := Evaluate(m, position, tick, settings), tick.ClosingPrice(m.side);
            if m.retryCount > settings.maxRetries then
              && d.state == m.(phase := ErrorNonRetryable,
                               lastError := if m.lastError.None? then Some(RetryLimitExhausted) else m.lastError)
              && d.action.None? && d.reason == RetryLimitReached
            else if tick.observedAt < m.retryNotBefore then d.state == m && d.action.None? && d.reason == RetryBackoff
            else
              var resumed := m.(phase := if m.resumePhase.Some? then m.resumePhase.value else WaitingBE, resumePhase := None,
                                lastError := None, retryNotBefore := 0.0);
              Answers(d, ActiveAnswer(resumed, position, closePrice, settings), m, closePrice)
  {
    hide EvaluateActive, ActiveAnswer, IdentityError, ProfitR;
    ActiveMeaning(LeaveBackoff(m), position, tick.ClosingPrice(m.side), settings);
  }

  /**
   A stale spell is over with the first usable observation.  A pending action it shows counts as confirmed; one it
   does not show is dropped, and everything else goes on as it would have from the phase below.
   */
  lemma StaleMeaning(m: ManagedPosition, position: BrokerPosition, tick: MarketTick, settings: ManagementSettings)
    requires Usable(m, position, tick, settings) && m.phase == Stale
    requires m.pendingAction.None? && m.resumePhase.Some? ==> m.resumePhase.value != Stale && m.resumePhase.value != Closed
                                                              && m.resumePhase.value != Unmanaged
    requires m.pendingAction.Some? ==> IsSource(m.pendingAction.value.sourcePhase)
    ensures var d, tolerance := Evaluate(m, position, tick, settings), PriceTolerance(settings.constraints);
            if m.pendingAction.Some?
               && StopConfirmed(position.brokerSl, m.pendingAction.value.targetSl, m.pendingAction.value.side, tolerance)
               && TakeProfitKept(position.brokerTp, m.pendingAction.value.preserveTp, tolerance)
            then d.state == ConfirmedState(m, m.pendingAction.value) && d.action.None? && d.reason == PendingActionReconciled
            else
              var below := if m.pendingAction.Some? then m.pendingAction.value.sourcePhase
                           else if m.resumePhase.Some? then m.resumePhase.value else WaitingBE;
              var resumed := m.(phase := below, pendingAction := None, resumePhase := None, lastError := None);
              SameAnswer(d, Evaluate(resumed, position, tick, settings))
  {
    if m.pendingAction.Some? {
      ReflectedMeaning(m.pendingAction.value, position, settings.constraints);
    }
    hide EvaluateActive, PriceTolerance, ProfitR, ActionIsReflected, StopConfirmed, TakeProfitKept;
  }

  /** The same decision, up to the figures that are reported with it. */
  predicate SameAnswer(d: Decision, e: Decision) {
    d.state == e.state && d.action == e.action && d.reason == e.reason
  }

  /** Reported with every priced answer: the gain over the entry price in units of the initial risk. */
  lemma ProfitMeaning(m: ManagedPosition, closePrice: real)
    ensures var risk := if m.entryPrice > m.initialSl then m.entryPrice - m.initialSl else m.initialSl - m.entryPrice;
            ProfitR(m, closePrice) * risk == if m.side == Buy then closePrice - m.entryPrice else m.entryPrice - closePrice
  {
    DivMul(if m.side == Buy then closePrice - m.entryPrice else m.entryPrice - closePrice, Abs(m.entryPrice - m.initialSl));
  }
}
