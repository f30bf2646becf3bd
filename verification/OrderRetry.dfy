/**
 Bounded retry.  The broker keeps showing the same position and answers every request with a retryable
 error: the machine proposes at most `maxRetries + 1` actions, waits out every backoff, and then stops for
 good in the non-retryable error.
 */
module OrderRetry {
  import opened Common
  import opened OrderManagement
  import opened OrderActionSafety
  import opened OrderInvariant

  datatype RetryEvent =
    | Quote(tick: MarketTick)
    | TransientError(observedAt: real, message: string)

  predicate Possible(m: ManagedPosition, event: RetryEvent) {
    match event
    case Quote(tick) => tick.isFresh && tick.ClosingPrice(m.side) > 0.0
    case TransientError(_, _) => m.pendingAction.Some?
  }

  function AsInput(event: RetryEvent, position: BrokerPosition, settings: ManagementSettings): Input {
    match event
    case Quote(tick) => Observe(position, tick, settings)
    case TransientError(observedAt, message) =>
      Deliver(ActionConfirmation(RetryableError, None, None, observedAt, message, Some(true)), settings)
  }

  function After(m: ManagedPosition, event: RetryEvent, position: BrokerPosition, settings: ManagementSettings)
    : ManagedPosition
  {
    Next(m, AsInput(event, position, settings))
  }

  function Proposed(m: ManagedPosition, event: RetryEvent, position: BrokerPosition, settings: ManagementSettings): nat {
    if Emitted(m, AsInput(event, position, settings)).Some? then 1 else 0
  }

  /** The actions proposed while `events` happen one after the other. */
  function Proposals(m: ManagedPosition, events: seq<RetryEvent>, position: BrokerPosition, settings: ManagementSettings): nat
    decreases |events|
  {
    if events == [] then 0
    else
      Proposed(m, events[0], position, settings)
      + Proposals(After(m, events[0], position, settings), events[1..], position, settings)
  }

  function Final(m: ManagedPosition, events: seq<RetryEvent>, position: BrokerPosition, settings: ManagementSettings)
    : ManagedPosition
    decreases |events|
  {
    if events == [] then m else Final(After(m, events[0], position, settings), events[1..], position, settings)
  }

  predicate AllPossible(m: ManagedPosition, events: seq<RetryEvent>, position: BrokerPosition, settings: ManagementSettings)
    decreases |events|
  {
    events != [] ==>
      Possible(m, events[0]) && AllPossible(After(m, events[0], position, settings), events[1..], position, settings)
  }

  predicate SteadyPosition(m: ManagedPosition, position: BrokerPosition, settings: ManagementSettings) {
    position.isFresh && position.present && IdentityError(m, position, settings.constraints).None?
  }

  /** The phase a retry would be proposed from. */
  function WorkingPhase(m: ManagedPosition): Phase {
    if m.phase == ErrorRetryable && m.resumePhase.Some? then m.resumePhase.value else m.phase
  }

  predicate RetryInvariant(m: ManagedPosition, proposed: nat, position: BrokerPosition, settings: ManagementSettings) {
    && Consistent(m) && SteadyPosition(m, position, settings)
    && proposed == m.retryCount + (if m.pendingAction.Some? then 1 else 0)
    && m.retryCount <= settings.maxRetries + 1
    && (m.retryCount > settings.maxRetries ==> m.phase == ErrorNonRetryable)
    && (m.phase == ErrorNonRetryable ==> m.pendingAction.None? && m.retryCount == settings.maxRetries + 1)
    && (m.phase == ErrorRetryable ==> m.resumePhase.Some?)
    && (m.phase != ErrorNonRetryable ==> WorkingPhase(m) == WaitingBE || IsProtectedPhase(WorkingPhase(m)))
    && (proposed > 0 && m.phase != ErrorNonRetryable ==>
          if AtBreakeven(m, position.brokerSl, settings)
          then WorkingPhase(m) == TrailWide || WorkingPhase(m) == TrailTight
          else WorkingPhase(m) == WaitingBE)
    && (m.pendingAction.Some? ==>
          TighterBy(m.side, m.pendingAction.value.targetSl, position.brokerSl, PriceTolerance(settings.constraints)))
  }

  /** How a quote moves the retry bookkeeping of a state with nothing pending. */
  predicate QuoteOutcome(w: ManagedPosition, d: Decision, atBreakeven: bool) {
    && (d.action.None? ==> d.state.pendingAction.None?)
    && (d.state.phase == WaitingBE || IsProtectedPhase(d.state.phase))
    && (d.state.retryCount == w.retryCount || d.state.retryCount == 0)
    && (w.phase == WaitingBE && !atBreakeven ==> d.state.phase == WaitingBE && d.state.retryCount == w.retryCount)
    && ((w.phase == TrailWide || w.phase == TrailTight) && atBreakeven ==>
          (d.state.phase == TrailWide || d.state.phase == TrailTight) && d.state.retryCount == w.retryCount)
    && (d.action.Some? ==> if atBreakeven then d.state.phase == TrailWide || d.state.phase == TrailTight
                           else d.state.phase == WaitingBE)
    && (d.action.Some? ==> d.state.retryCount == w.retryCount)
  }

  lemma ActiveQuote(w: ManagedPosition, position: BrokerPosition, closePrice: real, settings: ManagementSettings)
    requires w.pendingAction.None? && (w.phase == WaitingBE || IsProtectedPhase(w.phase))
    ensures QuoteOutcome(w, EvaluateActive(w, position, closePrice, settings), AtBreakeven(w, position.brokerSl, settings))
  {
  }

  lemma QuoteStep(m: ManagedPosition, proposed: nat, tick: MarketTick, position: BrokerPosition, settings: ManagementSettings)
    requires RetryInvariant(m, proposed, position, settings) && Possible(m, Quote(tick))
    ensures var d := Evaluate(m, position, tick, settings);
            && RetryInvariant(d.state, proposed + (if d.action.Some? then 1 else 0), position, settings)
            && d.state.retryCount >= m.retryCount
            && (m.phase == ErrorRetryable && tick.observedAt < m.retryNotBefore ==> d.state == m && d.action.None?)
  {
    var d := Evaluate(m, position, tick, settings);
    EvaluateStep(m, position, tick, settings);
    if m.phase != ErrorNonRetryable && m.pendingAction.None? {
      assert d == EvaluateResumed(m, position, tick, settings);
      if m.phase != ErrorRetryable {
        ActiveQuote(m, position, tick.ClosingPrice(m.side), settings);
      } else if tick.observedAt >= m.retryNotBefore {
        ActiveQuote(LeaveBackoff(m), position, tick.ClosingPrice(m.side), settings);
      }
      if d.action.Some? {
        EmittedActionIsSafe(m, position, tick, settings);
        EmissionNeedsNoPending(m, Observe(position, tick, settings));
      }
    } else if m.pendingAction.Some? {
      assert !ActionIsReflected(m.pendingAction.value, position, settings.constraints);
      assert d.state == m && d.action.None?;
    }
  }

  lemma ErrorStep(m: ManagedPosition, proposed: nat, event: RetryEvent, position: BrokerPosition, settings: ManagementSettings)
    requires event.TransientError?
    requires RetryInvariant(m, proposed, position, settings) && Possible(m, event)
    ensures var t := After(m, event, position, settings);
            && RetryInvariant(t, proposed, position, settings)
            && t.retryCount == m.retryCount + 1
            && if m.retryCount == settings.maxRetries then t.phase == ErrorNonRetryable
               else t.phase == ErrorRetryable
                    && t.retryNotBefore == event.observedAt + RetryDelay(t.retryCount, settings)
  {
    NextStep(m, AsInput(event, position, settings));
  }

  lemma RetryStep(m: ManagedPosition, proposed: nat, event: RetryEvent, position: BrokerPosition, settings: ManagementSettings)
    requires RetryInvariant(m, proposed, position, settings) && Possible(m, event)
    ensures RetryInvariant(After(m, event, position, settings),
                           proposed + Proposed(m, event, position, settings), position, settings)
    ensures After(m, event, position, settings).retryCount >= m.retryCount
  {
    match event
    case Quote(tick) => QuoteStep(m, proposed, tick, position, settings);
    case TransientError(_, _) => ErrorStep(m, proposed, event, position, settings);
  }

  lemma {:induction false} RunKeepsRetryInvariant(m: ManagedPosition, proposed: nat, events: seq<RetryEvent>,
                                                  position: BrokerPosition, settings: ManagementSettings)
    requires RetryInvariant(m, proposed, position, settings) && AllPossible(m, events, position, settings)
    ensures RetryInvariant(Final(m, events, position, settings),
                           proposed + Proposals(m, events, position, settings), position, settings)
    ensures Final(m, events, position, settings).retryCount >= m.retryCount
    decreases |events|
  {
    if events != [] {
      RetryStep(m, proposed, events[0], position, settings);
      RunKeepsRetryInvariant(After(m, events[0], position, settings),
                             proposed + Proposed(m, events[0], position, settings), events[1..], position, settings);
    }
  }

  /** A managed state with a clean retry record and nothing pending. */
  predicate CleanStart(m: ManagedPosition, position: BrokerPosition, settings: ManagementSettings) {
    && Consistent(m) && SteadyPosition(m, position, settings)
    && (m.phase == WaitingBE || IsProtectedPhase(m.phase)) && m.pendingAction.None? && m.retryCount == 0
  }

  /** At most `maxRetries + 1` actions are ever proposed, and every error so far is accounted for. */
  lemma RetriesAreBounded(m: ManagedPosition, events: seq<RetryEvent>, position: BrokerPosition, settings: ManagementSettings)
    requires CleanStart(m, position, settings) && AllPossible(m, events, position, settings)
    ensures var last := Final(m, events, position, settings);
            && Proposals(m, events, position, settings) <= settings.maxRetries + 1
            && Proposals(m, events, position, settings) == last.retryCount + (if last.pendingAction.Some? then 1 else 0)
            && (last.phase == ErrorNonRetryable <==> last.retryCount == settings.maxRetries + 1)
  {
    RunKeepsRetryInvariant(m, 0, events, position, settings);
  }

  /** However many quotes arrive before the backoff ends, nothing is proposed and nothing changes. */
  lemma {:induction false} BackoffIsRespected(m: ManagedPosition, proposed: nat, events: seq<RetryEvent>,
                                              position: BrokerPosition, settings: ManagementSettings)
    requires RetryInvariant(m, proposed, position, settings) && m.phase == ErrorRetryable
    requires forall k :: 0 <= k < |events| ==>
               events[k].Quote? && Possible(m, events[k]) && events[k].tick.observedAt < m.retryNotBefore
    ensures Final(m, events, position, settings) == m
    ensures Proposals(m, events, position, settings) == 0
    decreases |events|
  {
    if events != [] {
      assert Possible(m, events[0]);
      QuoteStep(m, proposed, events[0].tick, position, settings);
      BackoffIsRespected(m, proposed, events[1..], position, settings);
    }
  }

  lemma {:induction false} Pow2Monotone(a: nat, b: nat)
    requires a <= b
    ensures Pow2(a) <= Pow2(b)
    decreases b
  {
    if a < b {
      Pow2Monotone(a, b - 1);
    }
  }

  lemma ScaleBy(k: real, x: real, y: real)
    requires 0.0 <= k && x <= y
    ensures k * x <= k * y
  {
  }

  lemma UncappedDelayGrows(a: nat, b: nat, settings: ManagementSettings)
    requires 1 <= a <= b
    ensures settings.retryBaseDelay <= UncappedDelay(a, settings) <= UncappedDelay(b, settings)
  {
    Pow2Monotone(a - 1, b - 1);
    ScaleBy(settings.retryBaseDelay, Pow2(a - 1), Pow2(b - 1));
    ScaleBy(settings.retryBaseDelay, 1.0, Pow2(a - 1));
  }

  lemma UncappedDelayDoubles(a: nat, settings: ManagementSettings)
    requires 1 <= a
    ensures UncappedDelay(a + 1, settings) == 2.0 * UncappedDelay(a, settings)
  {
    Associates(settings.retryBaseDelay, Pow2(a - 1));
    assert Pow2(a) == 2.0 * Pow2(a - 1);
  }

  lemma Associates(k: real, x: real)
    ensures k * (2.0 * x) == 2.0 * (k * x)
  {
  }

  /** Backoff delays never shrink and never exceed a configured cap; without a cap they double. */
  lemma BackoffGrowsToItsCap(a: nat, b: nat, settings: ManagementSettings)
    requires 1 <= a <= b
    ensures 0.0 <= RetryDelay(a, settings) <= RetryDelay(b, settings)
    ensures settings.retryMaxDelay > 0.0 ==> settings.retryBaseDelay <= RetryDelay(a, settings) <= settings.retryMaxDelay
    ensures settings.retryMaxDelay == 0.0 ==> RetryDelay(a + 1, settings) == 2.0 * RetryDelay(a, settings)
  {
    hide UncappedDelay;
    UncappedDelayGrows(a, b, settings);
    UncappedDelayDoubles(a, settings);
  }
}
