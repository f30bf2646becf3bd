/**
 The break-even / trailing-stop state machine.  It sees immutable broker observations and answers with
 the next state and at most one stop-loss intent; it never caches the broker's stop.  Prices, times and
 R multiples are exact reals, an absent price is `None`, and texts (reasons and last errors) are
 enumerations with one constructor per message.
 */
module OrderManagement {
  import opened Common
  import opened Grid

  datatype Phase =
    | Unmanaged | WaitingBE | BEActive | TrailWide | TrailTight
    | Paused | Stale | ErrorRetryable | ErrorNonRetryable | Closed

  datatype ActionReason = Breakeven | WideTrail | TightTrail

  datatype ConfirmationStatus = Confirmed | RetryableError | Rejected | Unknown

  datatype Fault =
    | BrokerSnapshotUnavailable | InvalidMarketTick
    | PositionIdMismatch | PositionSideInvalid | PositionSideMismatch
    | PositionEntryInvalid | PositionEntryMismatch
    | BrokerSlBelowBreakeven | UnsupportedPhase(phase: Phase)
    | SlPostconditionFailed | TpPostconditionFailed
    | RetryLimitExhausted | RetryLimitExhaustedAfter(cause: Fault)
    | BrokerRetryableError | BrokerOutcomeUnknown | BrokerRequestRejected
    | BrokerMessage(text: string)

  datatype DecisionReason =
    | Inactive | SnapshotUnavailable | IdentityFailed(fault: Fault) | PositionConfirmedClosed
    | StillPaused | StillNonRetryable | TickInvalid
    | PendingActionReconciled | RetryLimitReached | RetryBackoff | ActionAwaitingConfirmation
    | BreakevenReconciledFromBroker | WaitingForBreakevenTrigger | BreakevenBlockedByConstraints
    | BrokerStopAlreadyMoreProtective | BreakevenActionRequired
    | TrailingArmed | AtrUnavailable | TrailingTargetInvalid | NoTighterStopAvailable
    | TrailingActionRequired | PhaseUnsupported

  datatype ConstraintData = ConstraintData(
    point: real, tickSize: real, digits: nat, stopsLevelPoints: nat, freezeLevelPoints: nat)
  {
    predicate Valid() {
      point > 0.0 && tickSize > 0.0
    }

    function MinimumStopDistance(): (d: real)
      requires Valid()
      ensures d >= 0.0
    {
      (if stopsLevelPoints > freezeLevelPoints then stopsLevelPoints else freezeLevelPoints) as real * point
    }
  }

  /** Construction rejects non-positive steps, so only valid constraints exist. */
  type SymbolConstraints = c: ConstraintData | c.Valid() witness ConstraintData(1.0, 1.0, 0, 0, 0)

  /** Whole prices and no distance limits: the grid of the examples. */
  const WHOLE: SymbolConstraints := ConstraintData(1.0, 1.0, 0, 0, 0)

  datatype SettingsData = SettingsData(
    constraints: SymbolConstraints, atr: Option<real>, beTriggerR: real, beOffset: real,
    tightTriggerR: real, wideAtrMultiplier: real, tightAtrMultiplier: real,
    minimumUpdateTicks: nat, maxRetries: nat, retryBaseDelay: real, retryMaxDelay: real)
  {
    predicate Valid() {
      && beTriggerR > 0.0 && beOffset >= 0.0 && tightTriggerR > 0.0
      && wideAtrMultiplier > 0.0 && tightAtrMultiplier > 0.0
      && retryBaseDelay >= 0.0 && retryMaxDelay >= 0.0
      && (retryMaxDelay > 0.0 ==> retryMaxDelay >= retryBaseDelay)
      && (atr.Some? ==> atr.value > 0.0)
    }
  }

  type ManagementSettings = s: SettingsData | s.Valid()
    witness SettingsData(ConstraintData(1.0, 1.0, 0, 0, 0), None, 1.0, 0.0, 2.0, 2.5, 1.5, 1, 3, 1.0, 30.0)

  /** `side` is `None` when the snapshot's side is neither "buy" nor "sell". */
  datatype BrokerPosition = BrokerPosition(
    positionId: int, side: Option<Side>, entryPrice: real,
    brokerSl: Option<real>, brokerTp: Option<real>, isFresh: bool, present: bool)

  datatype MarketTick = MarketTick(bid: real, ask: real, observedAt: real, isFresh: bool) {
    function ClosingPrice(side: Side): real {
      if side == Buy then bid else ask
    }
  }

  datatype DesiredAction = DesiredAction(
    reason: ActionReason, positionId: int, side: Side, targetSl: real, preserveTp: Option<real>,
    expectedBrokerSl: Option<real>, sourcePhase: Phase, closePrice: real, tickSize: real)

  datatype ManagedState = ManagedState(
    positionId: int, side: Side, entryPrice: real, initialSl: real, phase: Phase,
    extremePrice: Option<real>, pendingAction: Option<DesiredAction>, resumePhase: Option<Phase>,
    retryCount: nat, retryNotBefore: real, lastError: Option<Fault>)

  /** The risk distance is a divisor; `StartManagement` and every step keep it non-zero. */
  type ManagedPosition = s: ManagedState | s.entryPrice != s.initialSl
    witness ManagedState(1, Buy, 2.0, 1.0, WaitingBE, None, None, None, 0, 0.0, None)

  datatype Decision = Decision(
    state: ManagedPosition, action: Option<DesiredAction>, reason: DecisionReason,
    closePrice: Option<real>, profitR: Option<real>)

  datatype ActionConfirmation = ActionConfirmation(
    status: ConfirmationStatus, effectiveSl: Option<real>, effectiveTp: Option<real>,
    observedAt: real, message: string, positionExists: Option<bool>)

  /** The `ValueError`s raised by the operations. */
  datatype ValueError =
    | PositionIdNotPositive | PricesNotPositive | InitialSlOnWrongSide
    | PauseWhileAwaitingConfirmation | NoPendingAction
    | TargetOrCloseNotPositive | NonPositiveStop

  // ---------- price helpers ----------

  predicate IsPositive(price: Option<real>) {
    price.Some? && price.value > 0.0
  }

  function Pow10(n: nat): (r: real)
    ensures r > 0.0
  {
    if n == 0 then 1.0 else 10.0 * Pow10(n - 1)
  }

  function DigitQuantum(c: SymbolConstraints): (q: real)
    ensures q > 0.0
  {
    1.0 / Pow10(c.digits)
  }

  function PriceTolerance(c: SymbolConstraints): (t: real)
    ensures t > 0.0
  {
    var q := DigitQuantum(c);
    (if c.tickSize < q then c.tickSize else q) * 0.000001 + 0.000000000001
  }

  function RawBreakeven(side: Side, entryPrice: real, beOffset: real): real {
    if side == Buy then entryPrice + beOffset else entryPrice - beOffset
  }

  function ProfitR(state: ManagedPosition, closePrice: real): real {
    var profit := if state.side == Buy then closePrice - state.entryPrice else state.entryPrice - closePrice;
    profit / Abs(state.entryPrice - state.initialSl)
  }

  predicate RThresholdReached(state: ManagedPosition, profitR: real, thresholdR: real, c: SymbolConstraints) {
    profitR >= thresholdR - PriceTolerance(c) / Abs(state.entryPrice - state.initialSl)
  }

  function NewExtreme(side: Side, previous: Option<real>, closePrice: real): real {
    if !IsPositive(previous) then closePrice
    else if side == Buy then (if closePrice > previous.value then closePrice else previous.value)
    else (if closePrice < previous.value then closePrice else previous.value)
  }

  /** The least step worth a request. */
  function MinimumUpdate(settings: ManagementSettings): real {
    settings.minimumUpdateTicks as real * settings.constraints.tickSize
  }

  predicate IsStrictlyMoreProtective(
    candidate: real, brokerSl: Option<real>, side: Side, minimumImprovement: real, tolerance: real)
  {
    if !IsPositive(brokerSl) then true
    else
      var required := if minimumImprovement > 0.0 then minimumImprovement else 0.0;
      if side == Buy then
        candidate - brokerSl.value >= required - tolerance && candidate > brokerSl.value + tolerance
      else
        brokerSl.value - candidate >= required - tolerance && candidate < brokerSl.value - tolerance
  }

  predicate IsAtLeastAsProtective(actual: Option<real>, target: real, side: Side, tolerance: real) {
    IsPositive(actual) &&
    if side == Buy then actual.value >= target - tolerance else actual.value <= target + tolerance
  }

  predicate SameOptionalPrice(actual: Option<real>, expected: Option<real>, tolerance: real) {
    if !IsPositive(actual) || !IsPositive(expected) then !IsPositive(actual) && !IsPositive(expected)
    else Abs(actual.value - expected.value) <= tolerance
  }

  /** Clamp a stop target to the broker's minimum distance, then round it away from the price. */
  function NormalizeStopTarget(rawTarget: real, side: Side, closePrice: real, c: SymbolConstraints)
    : Result<real, ValueError>
  {
    if rawTarget <= 0.0 || closePrice <= 0.0 then Err(TargetOrCloseNotPositive)
    else
      var clamped := ClampedTarget(rawTarget, side, closePrice, c);
      if clamped <= 0.0 then Err(NonPositiveStop)
      else Ok(RoundStop(clamped, side, c.tickSize, DigitQuantum(c)))
  }

  function ClampedTarget(rawTarget: real, side: Side, closePrice: real, c: SymbolConstraints): real {
    var distance := c.MinimumStopDistance();
    if side == Buy then (if closePrice - distance < rawTarget then closePrice - distance else rawTarget)
    else (if closePrice + distance > rawTarget then closePrice + distance else rawTarget)
  }

  function RoundStop(price: real, side: Side, tick: GridStep, quantum: GridStep): real {
    if side == Buy then FloorTo(FloorTo(price, tick), quantum) else CeilTo(CeilTo(price, tick), quantum)
  }

  // ---------- user operations ----------

  function StartManagement(positionId: int, side: Side, entryPrice: real, initialSl: real)
    : Result<ManagedPosition, ValueError>
  {
    if positionId <= 0 then Err(PositionIdNotPositive)
    else if entryPrice <= 0.0 || initialSl <= 0.0 then Err(PricesNotPositive)
    else if side.Buy? && initialSl >= entryPrice then Err(InitialSlOnWrongSide)
    else if side.Sell? && initialSl <= entryPrice then Err(InitialSlOnWrongSide)
    else
      var state: ManagedPosition :=
        ManagedState(positionId, side, entryPrice, initialSl, WaitingBE, None, None, None, 0, 0.0, None);
      Ok(state)
  }

  function Pause(state: ManagedPosition): Result<ManagedPosition, ValueError> {
    if state.phase == Closed || state.phase == Unmanaged then Ok(state)
    else if state.pendingAction.Some? then Err(PauseWhileAwaitingConfirmation)
    else if state.phase == Paused then Ok(state)
    else Ok(state.(phase := Paused, resumePhase := Some(state.phase)))
  }

  function Resume(state: ManagedPosition): ManagedPosition {
    if state.phase != Paused then state
    else state.(phase := ResumeOr(state.resumePhase), resumePhase := None, lastError := None)
  }

  function ResumeOr(resumePhase: Option<Phase>): Phase {
    if resumePhase.Some? then resumePhase.value else WaitingBE
  }

  // ---------- observations ----------

  function Quiet(state: ManagedPosition, reason: DecisionReason): Decision {
    Decision(state, None, reason, None, None)
  }

  function Priced(state: ManagedPosition, reason: DecisionReason, closePrice: real): Decision {
    Decision(state, None, reason, Some(closePrice), Some(ProfitR(state, closePrice)))
  }

  function MarkStale(state: ManagedPosition, message: Fault): ManagedPosition {
    if state.phase == Stale then state.(lastError := Some(message))
    else state.(phase := Stale, resumePhase := Some(state.phase), lastError := Some(message))
  }

  function IdentityError(state: ManagedPosition, position: BrokerPosition, c: SymbolConstraints): Option<Fault> {
    if position.positionId != state.positionId then Some(PositionIdMismatch)
    else if position.side.None? then Some(PositionSideInvalid)
    else if position.side.value != state.side then Some(PositionSideMismatch)
    else if position.present && position.isFresh && position.entryPrice <= 0.0 then Some(PositionEntryInvalid)
    else if position.present && position.isFresh && Abs(position.entryPrice - state.entryPrice) > PriceTolerance(c)
    then Some(PositionEntryMismatch)
    else None
  }

  predicate ActionIsReflected(action: DesiredAction, position: BrokerPosition, c: SymbolConstraints) {
    && IsAtLeastAsProtective(position.brokerSl, action.targetSl, action.side, PriceTolerance(c))
    && SameOptionalPrice(position.brokerTp, action.preserveTp, PriceTolerance(c))
  }

  function ApplyConfirmedAction(state: ManagedPosition, action: DesiredAction): ManagedPosition {
    state.(phase := if action.reason == Breakeven then BEActive else action.sourcePhase,
           pendingAction := None, resumePhase := None,
           retryCount := 0, retryNotBefore := 0.0, lastError := None)
  }

  /** Evaluate one observation and propose at most one stop-loss action. */
  function Evaluate(state: ManagedPosition, position: BrokerPosition, tick: MarketTick, settings: ManagementSettings)
    : Decision
  {
    if state.phase == Unmanaged || state.phase == Closed then Quiet(state, Inactive)
    else if !position.isFresh || !tick.isFresh then
      Quiet(MarkStale(state, BrokerSnapshotUnavailable), SnapshotUnavailable)
    else
      var identityError := IdentityError(state, position, settings.constraints);
      if identityError.Some? then
        Quiet(state.(phase := ErrorNonRetryable, pendingAction := None, lastError := identityError),
              IdentityFailed(identityError.value))
      else if !position.present then
        Quiet(state.(phase := Closed, pendingAction := None, resumePhase := None, lastError := None),
              PositionConfirmedClosed)
      else if state.phase == Paused then Quiet(state, StillPaused)
      else if state.phase == ErrorNonRetryable then Quiet(state, StillNonRetryable)
      else if tick.ClosingPrice(state.side) <= 0.0 then
        Quiet(MarkStale(state, InvalidMarketTick), TickInvalid)
      else EvaluateFresh(state, position, tick, settings)
  }

  /** A fresh, matching, priced observation; STALE is resolved from broker truth first. */
  function EvaluateFresh(state: ManagedPosition, position: BrokerPosition, tick: MarketTick, settings: ManagementSettings)
    : Decision
  {
    var closePrice := tick.ClosingPrice(state.side);
    if state.phase == Stale then
      if state.pendingAction.Some? && ActionIsReflected(state.pendingAction.value, position, settings.constraints) then
        Priced(ApplyConfirmedAction(state, state.pendingAction.value), PendingActionReconciled, closePrice)
      else
        EvaluateResumed(Unstale(state), position, tick, settings)
    else EvaluateResumed(state, position, tick, settings)
  }

  function Unstale(state: ManagedPosition): ManagedPosition {
    var resumePhase :=
      if state.pendingAction.Some? then Some(state.pendingAction.value.sourcePhase) else state.resumePhase;
    state.(phase := ResumeOr(resumePhase), pendingAction := None, resumePhase := None, lastError := None)
  }

  function EvaluateResumed(working: ManagedPosition, position: BrokerPosition, tick: MarketTick, settings: ManagementSettings)
    : Decision
  {
    var closePrice := tick.ClosingPrice(working.side);
    if working.phase == Paused then Priced(working, StillPaused, closePrice)
    else if working.phase == ErrorNonRetryable then Priced(working, StillNonRetryable, closePrice)
    else if working.phase == ErrorRetryable then
      if working.retryCount > settings.maxRetries then
        Quiet(working.(phase := ErrorNonRetryable,
                       lastError := if working.lastError.Some? then working.lastError else Some(RetryLimitExhausted)),
              RetryLimitReached)
      else if tick.observedAt < working.retryNotBefore then Priced(working, RetryBackoff, closePrice)
      else EvaluateActive(LeaveBackoff(working), position, closePrice, settings)
    else EvaluateActive(working, position, closePrice, settings)
  }

  function LeaveBackoff(working: ManagedPosition): ManagedPosition {
    working.(phase := ResumeOr(working.resumePhase), resumePhase := None, lastError := None, retryNotBefore := 0.0)
  }

  function EvaluateActive(working: ManagedPosition, position: BrokerPosition, closePrice: real, settings: ManagementSettings)
    : Decision
  {
    if working.pendingAction.Some? then
      if ActionIsReflected(working.pendingAction.value, position, settings.constraints) then
        Priced(ApplyConfirmedAction(working, working.pendingAction.value), PendingActionReconciled, closePrice)
      else Priced(working, ActionAwaitingConfirmation, closePrice)
    else
      var gated := ReenterBreakevenGate(working, position, settings);
      match gated.phase
      case WaitingBE => EvaluateWaitingBE(gated, position, closePrice, settings)
      case BEActive => ArmTrailing(gated, closePrice, settings)
      case TrailWide => EvaluateTrailing(gated, position, closePrice, settings)
      case TrailTight => EvaluateTrailing(gated, position, closePrice, settings)
      case _ =>
        Quiet(gated.(phase := ErrorNonRetryable, lastError := Some(UnsupportedPhase(gated.phase))), PhaseUnsupported)
  }

  predicate IsProtectedPhase(phase: Phase) {
    phase == BEActive || phase == TrailWide || phase == TrailTight
  }

  predicate AtBreakeven(state: ManagedPosition, brokerSl: Option<real>, settings: ManagementSettings) {
    IsAtLeastAsProtective(brokerSl, RawBreakeven(state.side, state.entryPrice, settings.beOffset), state.side,
                          PriceTolerance(settings.constraints))
  }

  /** A protected phase whose broker stop is below break-even falls back to the break-even gate. */
  function ReenterBreakevenGate(working: ManagedPosition, position: BrokerPosition, settings: ManagementSettings)
    : ManagedPosition
  {
    if IsProtectedPhase(working.phase) && !AtBreakeven(working, position.brokerSl, settings) then
      working.(phase := WaitingBE, pendingAction := None, resumePhase := None,
               lastError := Some(BrokerSlBelowBreakeven))
    else working
  }

  function ArmTrailing(working: ManagedPosition, closePrice: real, settings: ManagementSettings): Decision {
    var tight := RThresholdReached(working, ProfitR(working, closePrice), settings.tightTriggerR, settings.constraints);
    Priced(working.(phase := if tight then TrailTight else TrailWide,
                    extremePrice := Some(NewExtreme(working.side, working.extremePrice, closePrice)),
                    retryCount := 0, retryNotBefore := 0.0, lastError := None),
           TrailingArmed, closePrice)
  }

  function EvaluateWaitingBE(state: ManagedPosition, position: BrokerPosition, closePrice: real, settings: ManagementSettings)
    : Decision
  {
    var c := settings.constraints;
    var tolerance := PriceTolerance(c);
    var rawBe := RawBreakeven(state.side, state.entryPrice, settings.beOffset);
    var extreme := Some(NewExtreme(state.side, state.extremePrice, closePrice));
    if AtBreakeven(state, position.brokerSl, settings) then
      Priced(state.(phase := BEActive, extremePrice := extreme, retryCount := 0, retryNotBefore := 0.0, lastError := None),
             BreakevenReconciledFromBroker, closePrice)
    else if !RThresholdReached(state, ProfitR(state, closePrice), settings.beTriggerR, c) then
      Priced(state, WaitingForBreakevenTrigger, closePrice)
    else
      var normalized := NormalizeStopTarget(rawBe, state.side, closePrice, c);
      if normalized.Err? then Priced(state, BreakevenBlockedByConstraints, closePrice)
      else
        var target := normalized.value;
        // A constrained target short of break-even is not break-even: do not send it.  The target passes
        // through the same comparison as a broker price, so a non-positive one is refused too.
        if !IsAtLeastAsProtective(Some(target), rawBe, state.side, tolerance) then
          Priced(state, BreakevenBlockedByConstraints, closePrice)
        else if !IsStrictlyMoreProtective(target, position.brokerSl, state.side,
                                          MinimumUpdate(settings), tolerance) then
          Priced(state, BrokerStopAlreadyMoreProtective, closePrice)
        else
          Emit(state.(extremePrice := extreme), Breakeven, WaitingBE, target, position, closePrice, settings,
               BreakevenActionRequired)
  }

  function EvaluateTrailing(state: ManagedPosition, position: BrokerPosition, closePrice: real, settings: ManagementSettings)
    : Decision
  {
    var c := settings.constraints;
    var phase :=
      if state.phase == TrailWide && RThresholdReached(state, ProfitR(state, closePrice), settings.tightTriggerR, c)
      then TrailTight else state.phase;
    var extreme := NewExtreme(state.side, state.extremePrice, closePrice);
    var working := state.(phase := phase, extremePrice := Some(extreme));
    if settings.atr.None? then Priced(working, AtrUnavailable, closePrice)
    else
      var normalized := NormalizeStopTarget(RawTrail(state.side, extreme, phase, settings), state.side, closePrice, c);
      if normalized.Err? then Priced(working, TrailingTargetInvalid, closePrice)
      else if !IsStrictlyMoreProtective(normalized.value, position.brokerSl, state.side,
                                        MinimumUpdate(settings), PriceTolerance(c)) then
        Priced(working, NoTighterStopAvailable, closePrice)
      else
        Emit(working, if phase == TrailTight then TightTrail else WideTrail, phase, normalized.value, position,
             closePrice, settings, TrailingActionRequired)
  }

  function RawTrail(side: Side, extreme: real, phase: Phase, settings: ManagementSettings): real
    requires settings.atr.Some?
  {
    var distance :=
      settings.atr.value * (if phase == TrailTight then settings.tightAtrMultiplier else settings.wideAtrMultiplier);
    if side == Buy then extreme - distance else extreme + distance
  }

  function Emit(working: ManagedPosition, reason: ActionReason, sourcePhase: Phase, target: real,
                position: BrokerPosition, closePrice: real, settings: ManagementSettings,
                decisionReason: DecisionReason): Decision
  {
    var action := DesiredAction(reason, working.positionId, working.side, target, position.brokerTp,
                                position.brokerSl, sourcePhase, closePrice, settings.constraints.tickSize);
    Decision(working.(pendingAction := Some(action)), Some(action), decisionReason,
             Some(closePrice), Some(ProfitR(working, closePrice)))
  }

  // ---------- execution results ----------

  function MessageOr(message: string, default: Fault): Fault {
    if message == [] then default else BrokerMessage(message)
  }

  function Pow2(n: nat): (r: real)
    ensures r >= 1.0
  {
    if n == 0 then 1.0 else 2.0 * Pow2(n - 1)
  }

  /** The wait before retry number `retryCount`: exponential, capped when a cap is configured. */
  function RetryDelay(retryCount: nat, settings: ManagementSettings): real
    requires retryCount >= 1
  {
    var delay := UncappedDelay(retryCount, settings);
    if settings.retryMaxDelay > 0.0 && settings.retryMaxDelay < delay then settings.retryMaxDelay else delay
  }

  function UncappedDelay(retryCount: nat, settings: ManagementSettings): real
    requires retryCount >= 1
  {
    settings.retryBaseDelay * Pow2(retryCount - 1)
  }

  predicate ConfirmationSlOk(action: DesiredAction, confirmation: ActionConfirmation, c: SymbolConstraints) {
    IsAtLeastAsProtective(confirmation.effectiveSl, action.targetSl, action.side, PriceTolerance(c))
  }

  predicate ConfirmationTpOk(action: DesiredAction, confirmation: ActionConfirmation, c: SymbolConstraints) {
    SameOptionalPrice(confirmation.effectiveTp, action.preserveTp, PriceTolerance(c))
  }

  function ApplyConfirmation(state: ManagedPosition, confirmation: ActionConfirmation, settings: ManagementSettings)
    : Result<ManagedPosition, ValueError>
  {
    if state.pendingAction.None? then Err(NoPendingAction)
    else
      var action := state.pendingAction.value;
      if confirmation.positionExists == Some(false) then
        Ok(state.(phase := Closed, pendingAction := None, resumePhase := None,
                  retryCount := 0, retryNotBefore := 0.0, lastError := None))
      else match confirmation.status
        case Confirmed =>
          var slOk := ConfirmationSlOk(action, confirmation, settings.constraints);
          if slOk && ConfirmationTpOk(action, confirmation, settings.constraints) then
            Ok(ApplyConfirmedAction(state, action))
          else
            Ok(Fail(state, action, if !slOk then SlPostconditionFailed else TpPostconditionFailed))
        case RetryableError =>
          var retryCount := state.retryCount + 1;
          var message := MessageOr(confirmation.message, BrokerRetryableError);
          if retryCount > settings.maxRetries then
            Ok(Fail(state, action, RetryLimitExhaustedAfter(message)).(retryCount := retryCount))
          else
            Ok(state.(phase := ErrorRetryable, pendingAction := None, resumePhase := Some(action.sourcePhase),
                      retryCount := retryCount,
                      retryNotBefore := confirmation.observedAt + RetryDelay(retryCount, settings),
                      lastError := Some(message)))
        case Unknown =>
          Ok(state.(phase := Stale, resumePhase := Some(action.sourcePhase),
                    lastError := Some(MessageOr(confirmation.message, BrokerOutcomeUnknown))))
        case Rejected =>
          Ok(Fail(state, action, MessageOr(confirmation.message, BrokerRequestRejected)))
  }

  function Fail(state: ManagedPosition, action: DesiredAction, fault: Fault): ManagedPosition {
    state.(phase := ErrorNonRetryable, pendingAction := None, resumePhase := Some(action.sourcePhase),
           lastError := Some(fault))
  }
}
