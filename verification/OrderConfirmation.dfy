/**
 What execution results mean, in prices and fields: when a confirmation is believed, what each failure leaves
 behind, how long a retry waits, and that a rejected request ends management.
 */
module OrderConfirmation {
  import opened Common
  import opened OrderManagement
  import opened OrderInvariant

  /** The stop the broker shows is at the target, or beyond it, up to the tolerance. */
  predicate StopConfirmed(sl: Option<real>, target: real, side: Side, tolerance: real) {
    sl.Some? && sl.value > 0.0 && (if side == Buy then sl.value >= target - tolerance else sl.value <= target + tolerance)
  }

  /** Both take-profits are missing (or zero), or both are there and equal up to the tolerance. */
  predicate TakeProfitKept(actual: Option<real>, expected: Option<real>, tolerance: real) {
    var a, e := if actual.Some? then actual.value else 0.0, if expected.Some? then expected.value else 0.0;
    (a <= 0.0 && e <= 0.0) || (a > 0.0 && e > 0.0 && e - tolerance <= a <= e + tolerance)
  }

  /** The phase a confirmed action leads to. */
  function ConfirmedPhase(action: DesiredAction): Phase {
    if action.reason == Breakeven then BEActive else action.sourcePhase
  }

  function ConfirmedState(s: ManagedPosition, action: DesiredAction): ManagedPosition {
    s.(phase := ConfirmedPhase(action), pendingAction := None, resumePhase := None,
       retryCount := 0, retryNotBefore := 0.0, lastError := None)
  }

  /** Management has failed: nothing pending, and the phase the action came from is only remembered. */
  function Failed(s: ManagedPosition, action: DesiredAction, retryCount: nat, fault: Fault): ManagedPosition {
    s.(phase := ErrorNonRetryable, pendingAction := None, resumePhase := Some(action.sourcePhase),
       retryCount := retryCount, lastError := Some(fault))
  }

  /** CONFIRMED is believed exactly if stop and take-profit are as requested; otherwise the wrong one is named. */
  lemma ConfirmedMeaning(s: ManagedPosition, action: DesiredAction, confirmation: ActionConfirmation,
                         settings: ManagementSettings)
    requires s.pendingAction == Some(action) && confirmation.status == Confirmed
    requires confirmation.positionExists != Some(false)
    ensures var tolerance := PriceTolerance(settings.constraints);
            var slOk := StopConfirmed(confirmation.effectiveSl, action.targetSl, action.side, tolerance);
            var tpOk := TakeProfitKept(confirmation.effectiveTp, action.preserveTp, tolerance);
            ApplyConfirmation(s, confirmation, settings)
            == Ok(if slOk && tpOk then ConfirmedState(s, action)
                  else Failed(s, action, s.retryCount, if slOk then TpPostconditionFailed else SlPostconditionFailed))
  {
    hide PriceTolerance;
  }

  /** The snapshot form of the same: a pending action counts as executed exactly if the snapshot shows both prices. */
  lemma ReflectedMeaning(action: DesiredAction, position: BrokerPosition, c: SymbolConstraints)
    ensures ActionIsReflected(action, position, c)
       <==> StopConfirmed(position.brokerSl, action.targetSl, action.side, PriceTolerance(c))
            && TakeProfitKept(position.brokerTp, action.preserveTp, PriceTolerance(c))
  {
    hide PriceTolerance;
  }

  /** A first retry waits the base delay, each further one twice as long, and none longer than a configured cap. */
  lemma {:induction false} DelayMeaning(retryCount: nat, settings: ManagementSettings)
    requires retryCount >= 1
    ensures UncappedDelay(1, settings) == settings.retryBaseDelay
    ensures UncappedDelay(retryCount + 1, settings) == 2.0 * UncappedDelay(retryCount, settings)
    ensures var capped := settings.retryMaxDelay > 0.0 && UncappedDelay(retryCount, settings) > settings.retryMaxDelay;
            RetryDelay(retryCount, settings) == if capped then settings.retryMaxDelay else UncappedDelay(retryCount, settings)
  {
    Doubles(settings.retryBaseDelay, Pow2(retryCount - 1));
    assert Pow2(0) == 1.0 && Pow2(retryCount) == 2.0 * Pow2(retryCount - 1);
  }

  lemma Doubles(k: real, x: real)
    ensures k * (2.0 * x) == 2.0 * (k * x)
    ensures k * 1.0 == k
  {
  }

  /** What the other results leave behind. */
  lemma UnconfirmedMeaning(s: ManagedPosition, action: DesiredAction, confirmation: ActionConfirmation,
                           settings: ManagementSettings)
    requires s.pendingAction == Some(action)
    ensures var t := ApplyConfirmation(s, confirmation, settings);
            var text := confirmation.message;
            if confirmation.positionExists == Some(false) then
              t == Ok(s.(phase := Closed, pendingAction := None, resumePhase := None, retryCount := 0,
                         retryNotBefore := 0.0, lastError := None))
            else match confirmation.status
              case Confirmed => t.Ok?
              case Rejected =>
                t == Ok(Failed(s, action, s.retryCount, if text == "" then BrokerRequestRejected else BrokerMessage(text)))
              case Unknown =>
                t == Ok(s.(phase := Stale, resumePhase := Some(action.sourcePhase),
                           lastError := Some(if text == "" then BrokerOutcomeUnknown else BrokerMessage(text))))
              case RetryableError =>
                var fault := if text == "" then BrokerRetryableError else BrokerMessage(text);
                if s.retryCount >= settings.maxRetries
                then t == Ok(Failed(s, action, s.retryCount + 1, RetryLimitExhaustedAfter(fault)))
                else t == Ok(s.(phase := ErrorRetryable, pendingAction := None, resumePhase := Some(action.sourcePhase),
                                retryCount := s.retryCount + 1, lastError := Some(fault),
                                retryNotBefore := confirmation.observedAt + RetryDelay(s.retryCount + 1, settings)))
  {
    hide PriceTolerance, RetryDelay, ConfirmationSlOk, ConfirmationTpOk;
  }

  lemma NothingToConfirm(s: ManagedPosition, confirmation: ActionConfirmation, settings: ManagementSettings)
    ensures ApplyConfirmation(s, confirmation, settings).Err? <==> s.pendingAction.None?
  {
  }

  // ---------- a rejected request ends management ----------

  /** The final error, a stale spell on top of it, or a closed position; and nothing pending. */
  predicate HasEnded(s: ManagedPosition) {
    && s.pendingAction.None?
    && (s.phase == ErrorNonRetryable || s.phase == Closed || (s.phase == Stale && s.resumePhase == Some(ErrorNonRetryable)))
  }

  lemma EndedObservation(s: ManagedPosition, position: BrokerPosition, tick: MarketTick, settings: ManagementSettings)
    requires HasEnded(s)
    ensures var d := Evaluate(s, position, tick, settings);
            HasEnded(d.state) && d.action.None?
  {
    hide EvaluateActive, IdentityError, ProfitR, ActionIsReflected;
  }

  lemma EndedStep(s: ManagedPosition, input: Input)
    requires HasEnded(s) && !input.PauseNow?
    ensures HasEnded(Next(s, input)) && Emitted(s, input).None?
  {
    hide Evaluate;
    if input.Observe? {
      EndedObservation(s, input.position, input.tick, input.settings);
    }
  }

  lemma {:induction false} EndedForGood(s: ManagedPosition, inputs: seq<Input>)
    requires HasEnded(s) && forall k :: 0 <= k < |inputs| ==> !inputs[k].PauseNow?
    ensures HasEnded(Run(s, inputs)) && Emissions(s, inputs) == 0
    decreases |inputs|
  {
    hide HasEnded, Next, Emitted;
    if inputs != [] {
      EndedStep(s, inputs[0]);
      EndedForGood(Next(s, inputs[0]), inputs[1..]);
    }
  }

  /** After a rejection no run without a pause ever proposes anything again, stale looks or not. */
  lemma RejectionEndsManagement(s: ManagedPosition, action: DesiredAction, confirmation: ActionConfirmation,
                                settings: ManagementSettings, inputs: seq<Input>)
    requires s.pendingAction == Some(action) && confirmation.status == Rejected
    requires confirmation.positionExists != Some(false)
    requires forall k :: 0 <= k < |inputs| ==> !inputs[k].PauseNow?
    ensures var t := Next(s, Deliver(confirmation, settings));
            && t.phase == ErrorNonRetryable && t.resumePhase == Some(action.sourcePhase) && t.pendingAction.None?
            && t.retryCount == s.retryCount
            && Emissions(t, inputs) == 0 && HasEnded(Run(t, inputs))
  {
    hide Run, Emissions;
    EndedForGood(Next(s, Deliver(confirmation, settings)), inputs);
  }

  /** So does a confirmation that shows the wrong stop or take-profit. */
  lemma BrokenPostconditionEndsManagement(s: ManagedPosition, action: DesiredAction, confirmation: ActionConfirmation,
                                          settings: ManagementSettings, inputs: seq<Input>)
    requires s.pendingAction == Some(action) && confirmation.status == Confirmed
    requires confirmation.positionExists != Some(false)
    requires var tolerance := PriceTolerance(settings.constraints);
             !StopConfirmed(confirmation.effectiveSl, action.targetSl, action.side, tolerance)
             || !TakeProfitKept(confirmation.effectiveTp, action.preserveTp, tolerance)
    requires forall k :: 0 <= k < |inputs| ==> !inputs[k].PauseNow?
    ensures var t := Next(s, Deliver(confirmation, settings));
            t.phase == ErrorNonRetryable && Emissions(t, inputs) == 0
  {
    hide Run, Emissions, PriceTolerance, StopConfirmed, TakeProfitKept;
    ConfirmedMeaning(s, action, confirmation, settings);
    EndedForGood(Next(s, Deliver(confirmation, settings)), inputs);
  }
}
