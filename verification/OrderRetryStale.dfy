/**
 Retries with stale looks in between.  A backoff that goes stale forgets the trail it came from and, with the
 stop at break-even, forgets its count as well, so a trailing request can fail without end.  While the stop is
 short of break-even the count survives: errors stay bounded, and so do proposals but for requests given up.
 */
module OrderRetryStale {
  import opened Common
  import opened Grid
  import opened OrderManagement
  import opened OrderActionSafety
  import opened OrderInvariant
  import opened OrderTrailing
  import opened OrderRetry

  // ---------- the count is forgotten at break-even ----------

  predicate IsMissed(input: Input) {
    input.Observe? && (!input.position.isFresh || !input.tick.isFresh)
  }

  /** One stale look during a backoff, then a usable one after it: at break-even the retry count is gone. */
  lemma StaleLookResetsCount(m: ManagedPosition, missed: Input, position: BrokerPosition, tick: MarketTick,
                             settings: ManagementSettings)
    requires m.phase == ErrorRetryable && m.pendingAction.None? && m.retryCount <= settings.maxRetries
    requires IsMissed(missed) && SteadyPosition(m, position, settings)
    requires tick.isFresh && tick.ClosingPrice(m.side) > 0.0 && tick.observedAt >= m.retryNotBefore
    requires AtBreakeven(m, position.brokerSl, settings)
    ensures Next(Next(m, missed), Observe(position, tick, settings))
         == m.(phase := BEActive, resumePhase := None, retryCount := 0, retryNotBefore := 0.0, lastError := None,
               extremePrice := Some(NewExtreme(m.side, m.extremePrice, tick.ClosingPrice(m.side))))
    ensures !Emitted(m, missed).Some? && !Emitted(Next(m, missed), Observe(position, tick, settings)).Some?
  {
    hide PriceTolerance, RThresholdReached, ProfitR, NormalizeStopTarget, IsStrictlyMoreProtective, IsAtLeastAsProtective,
      NewExtreme;
  }

  // ---------- a run without a bound ----------

  /** A trailing machine at rest in its stage, with a clean record, about to ask for a better stop at this price. */
  ghost predicate Rests(m: ManagedPosition, position: BrokerPosition, tick: MarketTick, settings: ManagementSettings) {
    var closePrice := tick.ClosingPrice(m.side);
    && Consistent(m) && Trails(m, position, tick, settings) && TrailImproves(m, position.brokerSl, closePrice, settings)
    && m.phase == (if RThresholdReached(m, ProfitR(m, closePrice), settings.tightTriggerR, settings.constraints)
                   then TrailTight else TrailWide)
    && m.extremePrice == Some(NewExtreme(m.side, m.extremePrice, closePrice))
    && m.resumePhase.None? && m.retryCount == 0 && m.retryNotBefore == 0.0 && m.lastError.None?
  }

  function AtTime(tick: MarketTick, t: real): MarketTick {
    tick.(observedAt := t)
  }

  function FailedAt(t: real): ActionConfirmation {
    ActionConfirmation(RetryableError, None, None, t, "", Some(true))
  }

  /** Ask, fail, miss a look, look once the backoff is over, look again. */
  function Cycle(position: BrokerPosition, tick: MarketTick, settings: ManagementSettings, t: real): seq<Input> {
    var later := AtTime(tick, t + RetryDelay(1, settings));
    [Observe(position, AtTime(tick, t), settings), Deliver(FailedAt(t), settings),
     Observe(position.(isFresh := false), AtTime(tick, t), settings),
     Observe(position, later, settings), Observe(position, later, settings)]
  }

  lemma AskStep(m: ManagedPosition, position: BrokerPosition, tick: MarketTick, settings: ManagementSettings)
    requires Rests(m, position, tick, settings)
    ensures var ask := Observe(position, tick, settings);
            Emitted(m, ask).Some? && Next(m, ask) == m.(pendingAction := Emitted(m, ask))
    ensures Emitted(m, Observe(position, tick, settings)).value.sourcePhase == m.phase
  {
    TrailingSentIff(m, position, tick, settings);
    StageReached(m, tick.ClosingPrice(m.side), settings);
    EmissionNeedsNoPending(m, Observe(position, tick, settings));
    hide Evaluate, TrailImproves, StageAt, RThresholdReached, ProfitR, NewExtreme, PriceTolerance;
  }

  lemma FailStep(m: ManagedPosition, action: DesiredAction, t: real, settings: ManagementSettings)
    requires m.pendingAction.None? && m.retryCount == 0 && settings.maxRetries >= 1 && action.sourcePhase == m.phase
    ensures var failed := Next(m.(pendingAction := Some(action)), Deliver(FailedAt(t), settings));
            failed == m.(phase := ErrorRetryable, resumePhase := Some(m.phase), retryCount := 1,
                         retryNotBefore := t + RetryDelay(1, settings), lastError := Some(BrokerRetryableError))
  {
    hide RetryDelay;
  }

  lemma ArmStep(m: ManagedPosition, position: BrokerPosition, tick: MarketTick, settings: ManagementSettings)
    requires Rests(m, position, tick, settings)
    ensures var look := Observe(position, tick, settings);
            Next(m.(phase := BEActive), look) == m && Emitted(m.(phase := BEActive), look).None?
  {
    hide PriceTolerance, RThresholdReached, NormalizeStopTarget, IsStrictlyMoreProtective, TrailImproves, NewExtreme,
      IsAtLeastAsProtective;
    var w := m.(phase := BEActive);
    assert ProfitR(w, tick.ClosingPrice(m.side)) == ProfitR(m, tick.ClosingPrice(m.side));
    SameThreshold(m, w, ProfitR(m, tick.ClosingPrice(m.side)), settings);
    hide ProfitR;
  }

  lemma SameThreshold(m: ManagedPosition, w: ManagedPosition, profit: real, settings: ManagementSettings)
    requires SamePosition(m, w)
    ensures RThresholdReached(m, profit, settings.tightTriggerR, settings.constraints)
         == RThresholdReached(w, profit, settings.tightTriggerR, settings.constraints)
  {
  }

  lemma TimeDoesNotMatter(m: ManagedPosition, position: BrokerPosition, tick: MarketTick, t: real, settings: ManagementSettings)
    requires Rests(m, position, tick, settings)
    ensures Rests(m, position, AtTime(tick, t), settings)
  {
    hide TrailImproves, RThresholdReached, ProfitR, PriceTolerance, NewExtreme;
  }

  /** The first half of a cycle: ask and fail. */
  lemma AskAndFail(m: ManagedPosition, position: BrokerPosition, tick: MarketTick, settings: ManagementSettings, t: real)
    requires Rests(m, position, tick, settings) && settings.maxRetries >= 1
    ensures var ask, fail := Observe(position, AtTime(tick, t), settings), Deliver(FailedAt(t), settings);
            var s1 := Next(m, ask);
            && Emitted(m, ask).Some? && Emitted(s1, fail).None?
            && Next(s1, fail) == m.(phase := ErrorRetryable, resumePhase := Some(m.phase), retryCount := 1,
                                    retryNotBefore := t + RetryDelay(1, settings), lastError := Some(BrokerRetryableError))
  {
    var ask, fail := Observe(position, AtTime(tick, t), settings), Deliver(FailedAt(t), settings);
    TimeDoesNotMatter(m, position, tick, t, settings);
    AskStep(m, position, AtTime(tick, t), settings);
    ExtremeRests(m, position, tick, settings);
    hide Next, Emitted, Rests, RetryDelay;
    FailStep(m, Emitted(m, ask).value, t, settings);
    OnlyObservationsEmit(Next(m, ask), fail);
  }

  /** The second half: miss a look, look after the backoff, look again. */
  lemma MissAndRecover(m: ManagedPosition, position: BrokerPosition, tick: MarketTick, settings: ManagementSettings, t: real,
                       failed: ManagedPosition)
    requires Rests(m, position, tick, settings) && settings.maxRetries >= 1
    requires failed == m.(phase := ErrorRetryable, resumePhase := Some(m.phase), retryCount := 1,
                          retryNotBefore := t + RetryDelay(1, settings), lastError := Some(BrokerRetryableError))
    ensures var miss := Observe(position.(isFresh := false), AtTime(tick, t), settings);
            var look := Observe(position, AtTime(tick, t + RetryDelay(1, settings)), settings);
            var s3 := Next(failed, miss);
            var s4 := Next(s3, look);
            && Next(s4, look) == m
            && Emitted(failed, miss).None? && Emitted(s3, look).None? && Emitted(s4, look).None?
  {
    var later := AtTime(tick, t + RetryDelay(1, settings));
    var miss := Observe(position.(isFresh := false), AtTime(tick, t), settings);
    TimeDoesNotMatter(m, position, tick, t + RetryDelay(1, settings), settings);
    RestsIsSteady(m, failed, position, later, settings);
    ExtremeRests(m, position, later, settings);
    ArmStep(m, position, later, settings);
    hide Next, Emitted, Rests, RetryDelay, SteadyPosition, AtBreakeven, NewExtreme;
    StaleLookResetsCount(failed, miss, position, later, settings);
  }

  /** The states of one cycle. */
  lemma CycleStates(m: ManagedPosition, position: BrokerPosition, tick: MarketTick, settings: ManagementSettings, t: real)
    requires Rests(m, position, tick, settings) && settings.maxRetries >= 1
    ensures var c := Cycle(position, tick, settings, t);
            var s1 := Next(m, c[0]);
            var s2 := Next(s1, c[1]);
            var s3 := Next(s2, c[2]);
            var s4 := Next(s3, c[3]);
            && Next(s4, c[4]) == m
            && Emitted(m, c[0]).Some? && Emitted(s1, c[1]).None? && Emitted(s2, c[2]).None?
            && Emitted(s3, c[3]).None? && Emitted(s4, c[4]).None?
  {
    hide Next, Emitted, Rests, RetryDelay;
    var c := Cycle(position, tick, settings, t);
    AskAndFail(m, position, tick, settings, t);
    MissAndRecover(m, position, tick, settings, t, Next(Next(m, c[0]), c[1]));
  }

  lemma ExtremeRests(m: ManagedPosition, position: BrokerPosition, tick: MarketTick, settings: ManagementSettings)
    requires Rests(m, position, tick, settings)
    ensures m.extremePrice == Some(NewExtreme(m.side, m.extremePrice, tick.ClosingPrice(m.side)))
    ensures m.resumePhase.None? && m.retryCount == 0 && m.retryNotBefore == 0.0 && m.lastError.None? && m.pendingAction.None?
  {
    hide TrailImproves, RThresholdReached, ProfitR, PriceTolerance, NewExtreme;
  }

  lemma OnlyObservationsEmit(s: ManagedPosition, input: Input)
    requires !input.Observe?
    ensures Emitted(s, input).None?
  {
  }

  lemma RestsIsSteady(m: ManagedPosition, s: ManagedPosition, position: BrokerPosition, tick: MarketTick,
                      settings: ManagementSettings)
    requires Rests(m, position, tick, settings) && SamePosition(m, s)
    ensures SteadyPosition(s, position, settings) && AtBreakeven(s, position.brokerSl, settings)
    ensures tick.isFresh && tick.ClosingPrice(s.side) > 0.0
  {
    hide TrailImproves, RThresholdReached, ProfitR, PriceTolerance, NewExtreme;
  }

  lemma OneStep(s: ManagedPosition, inputs: seq<Input>)
    requires inputs != []
    ensures Run(s, inputs) == Run(Next(s, inputs[0]), inputs[1..])
    ensures Emissions(s, inputs)
         == (if Emitted(s, inputs[0]).Some? then 1 else 0) + Emissions(Next(s, inputs[0]), inputs[1..])
  {
    hide Next, Emitted;
  }

  lemma {:induction false} OneRunAfterAnother(s: ManagedPosition, a: seq<Input>, b: seq<Input>)
    ensures Run(s, a + b) == Run(Run(s, a), b)
    ensures Emissions(s, a + b) == Emissions(s, a) + Emissions(Run(s, a), b)
    decreases |a|
  {
    if a == [] {
      assert a + b == b;
    } else {
      hide Next, Emitted;
      assert (a + b)[1..] == a[1..] + b;
      OneStep(s, a + b);
      OneStep(s, a);
      OneRunAfterAnother(Next(s, a[0]), a[1..], b);
    }
  }

  lemma CycleAlone(m: ManagedPosition, position: BrokerPosition, tick: MarketTick, settings: ManagementSettings, t: real)
    requires Rests(m, position, tick, settings) && settings.maxRetries >= 1
    ensures Run(m, Cycle(position, tick, settings, t)) == m
    ensures Emissions(m, Cycle(position, tick, settings, t)) == 1
  {
    CycleStates(m, position, tick, settings, t);
    CycleHasFive(position, tick, settings, t);
    var c := Cycle(position, tick, settings, t);
    var s1 := Next(m, c[0]);
    var s2 := Next(s1, c[1]);
    var s3 := Next(s2, c[2]);
    var s4 := Next(s3, c[3]);
    OneStep(m, c);
    OneStep(s1, c[1..]);
    OneStep(s2, c[2..]);
    OneStep(s3, c[3..]);
    OneStep(s4, c[4..]);
    Nothing(m);
    hide Next, Emitted, Run, Emissions, Rests, Cycle;
    assert c[1..][1..] == c[2..] && c[2..][1..] == c[3..] && c[3..][1..] == c[4..] && c[4..][1..] == [];
  }

  lemma Nothing(m: ManagedPosition)
    ensures Run(m, []) == m && Emissions(m, []) == 0
  {
  }

  lemma CycleHasFive(position: BrokerPosition, tick: MarketTick, settings: ManagementSettings, t: real)
    ensures |Cycle(position, tick, settings, t)| == 5
  {
  }

  /** Cycles one after the other, each starting when the backoff of the one before is over. */
  function Cycles(n: nat, position: BrokerPosition, tick: MarketTick, settings: ManagementSettings, t: real): seq<Input> {
    if n == 0 then []
    else Cycle(position, tick, settings, t) + Cycles(n - 1, position, tick, settings, t + RetryDelay(1, settings))
  }

  /** With one stale look per failure a trailing request is proposed any number of times and the error is never final. */
  lemma {:induction false} RetriesAreUnbounded(m: ManagedPosition, position: BrokerPosition, tick: MarketTick,
                                               settings: ManagementSettings, t: real, n: nat)
    requires Rests(m, position, tick, settings) && settings.maxRetries >= 1
    ensures Run(m, Cycles(n, position, tick, settings, t)) == m
    ensures Emissions(m, Cycles(n, position, tick, settings, t)) == n
    decreases n
  {
    hide Rests, Cycle, Next, Emitted, RetryDelay, Run, Emissions;
    Nothing(m);
    if n > 0 {
      var next := t + RetryDelay(1, settings);
      RetriesAreUnbounded(m, position, tick, settings, next, n - 1);
      CycleAlone(m, position, tick, settings, t);
      OneRunAfterAnother(m, Cycle(position, tick, settings, t), Cycles(n - 1, position, tick, settings, next));
    }
  }

  const SETTINGS: ManagementSettings := SettingsData(WHOLE, Some(2.0), 1.0, 0.0, 2.0, 2.5, 1.5, 1, 3, 1.0, 30.0)
  const RESTING: ManagedPosition :=
    ManagedState(1, Buy, 100.0, 90.0, TrailWide, Some(115.0), None, None, 0, 0.0, None)
  const PROTECTED := BrokerPosition(1, Some(Buy), 100.0, Some(100.0), None, true, true)
  const AT_115 := MarketTick(115.0, 115.0, 0.0, true)

  /** Such a machine: a BUY at 100 in the wide trail, stop at 100, price and best price 115, asking for 110. */
  lemma SomeMachineRests()
    ensures Rests(RESTING, PROTECTED, AT_115, SETTINGS)
  {
    assert Pow10(0) == 1.0;
    assert DigitQuantum(WHOLE) == 1.0 && PriceTolerance(WHOLE) == 0.000001000001;
    assert ProfitR(RESTING, 115.0) == 1.5;
    hide DigitQuantum, PriceTolerance, ProfitR;
    assert (110.0 / 1.0).Floor == 110;
    assert FloorTo(110.0, 1.0) == 110.0;
    StageReached(RESTING, 115.0, SETTINGS);
    hide StageAt;
    assert StageAt(RESTING, 115.0, SETTINGS) == TrailWide;
    assert RawTrail(Buy, 115.0, TrailWide, SETTINGS) == 110.0;
    assert TrailTarget(RESTING, 115.0, SETTINGS) == 110.0;
    assert TrailStop(RESTING, 115.0, SETTINGS) == 110.0;
  }

  // ---------- short of break-even the count survives ----------

  datatype LooseEvent = Timely(event: RetryEvent) | Missed(position: BrokerPosition, tick: MarketTick)

  predicate LoosePossible(m: ManagedPosition, event: LooseEvent) {
    match event
    case Timely(e) => Possible(m, e)
    case Missed(position, tick) => !position.isFresh || !tick.isFresh
  }

  function LooseInput(event: LooseEvent, position: BrokerPosition, settings: ManagementSettings): Input {
    match event
    case Timely(e) => AsInput(e, position, settings)
    case Missed(unseen, tick) => Observe(unseen, tick, settings)
  }

  function LooseNext(m: ManagedPosition, event: LooseEvent, position: BrokerPosition, settings: ManagementSettings)
    : ManagedPosition
  {
    Next(m, LooseInput(event, position, settings))
  }

  function LooseProposed(m: ManagedPosition, event: LooseEvent, position: BrokerPosition, settings: ManagementSettings): nat {
    if Emitted(m, LooseInput(event, position, settings)).Some? then 1 else 0
  }

  /** A quote that finds the machine stale gives up the request that was pending. */
  function GivenUp(m: ManagedPosition, event: LooseEvent): nat {
    if event.Timely? && event.event.Quote? && m.phase == Stale && m.pendingAction.Some? then 1 else 0
  }

  function LooseProposals(m: ManagedPosition, events: seq<LooseEvent>, position: BrokerPosition,
                          settings: ManagementSettings): nat
    decreases |events|
  {
    if events == [] then 0
    else
      LooseProposed(m, events[0], position, settings)
      + LooseProposals(LooseNext(m, events[0], position, settings), events[1..], position, settings)
  }

  function GivenUps(m: ManagedPosition, events: seq<LooseEvent>, position: BrokerPosition, settings: ManagementSettings): nat
    decreases |events|
  {
    if events == [] then 0
    else GivenUp(m, events[0]) + GivenUps(LooseNext(m, events[0], position, settings), events[1..], position, settings)
  }

  function LooseFinal(m: ManagedPosition, events: seq<LooseEvent>, position: BrokerPosition, settings: ManagementSettings)
    : ManagedPosition
    decreases |events|
  {
    if events == [] then m
    else LooseFinal(LooseNext(m, events[0], position, settings), events[1..], position, settings)
  }

  predicate AllLoosePossible(m: ManagedPosition, events: seq<LooseEvent>, position: BrokerPosition,
                             settings: ManagementSettings)
    decreases |events|
  {
    events != [] ==>
      && LoosePossible(m, events[0])
      && AllLoosePossible(LooseNext(m, events[0], position, settings), events[1..], position, settings)
  }

  predicate IsLive(phase: Phase) {
    phase == WaitingBE || IsProtectedPhase(phase)
  }

  /** The retries are exhausted: the final error, or a stale spell on top of it. */
  predicate Exhausted(m: ManagedPosition) {
    m.phase == ErrorNonRetryable || (m.phase == Stale && m.resumePhase == Some(ErrorNonRetryable))
  }

  predicate LooseShape(m: ManagedPosition) {
    && (IsLive(m.phase) || m.phase == ErrorRetryable || m.phase == ErrorNonRetryable || m.phase == Stale)
    && (m.phase == ErrorRetryable ==> m.pendingAction.None? && (m.resumePhase.Some? ==> IsLive(m.resumePhase.value)))
    && (m.phase == ErrorNonRetryable ==> m.pendingAction.None?)
    && (m.phase == Stale ==>
          && m.resumePhase.Some?
          && (IsLive(m.resumePhase.value) || m.resumePhase.value == ErrorRetryable || m.resumePhase.value == ErrorNonRetryable)
          && (m.pendingAction.Some? ==> IsLive(m.resumePhase.value)))
  }

  predicate LooseInvariant(m: ManagedPosition, proposed: nat, abandoned: nat, position: BrokerPosition,
                           settings: ManagementSettings)
  {
    && Consistent(m) && SteadyPosition(m, position, settings) && !AtBreakeven(m, position.brokerSl, settings)
    && LooseShape(m)
    && proposed == m.retryCount + abandoned + (if m.pendingAction.Some? then 1 else 0)
    && m.retryCount <= settings.maxRetries + 1
    && (m.retryCount == settings.maxRetries + 1 <==> Exhausted(m))
    && (m.pendingAction.Some? ==>
          TighterBy(m.side, m.pendingAction.value.targetSl, position.brokerSl, PriceTolerance(settings.constraints)))
  }

  /** Short of break-even a look leads back to the gate, keeps the count, and a new request is the pending one. */
  lemma ShortLook(w: ManagedPosition, position: BrokerPosition, closePrice: real, settings: ManagementSettings)
    requires IsLive(w.phase) && w.pendingAction.None? && !AtBreakeven(w, position.brokerSl, settings)
    ensures var d := EvaluateActive(w, position, closePrice, settings);
            d.state.phase == WaitingBE && d.state.retryCount == w.retryCount && d.state.pendingAction == d.action
  {
    hide RoundStop, RThresholdReached, ProfitR, PriceTolerance, DigitQuantum, ClampedTarget, NormalizeStopTarget,
         IsStrictlyMoreProtective, IsAtLeastAsProtective;
  }

  lemma NotReflected(m: ManagedPosition, position: BrokerPosition, settings: ManagementSettings)
    requires m.pendingAction.Some? && Consistent(m)
    requires TighterBy(m.side, m.pendingAction.value.targetSl, position.brokerSl, PriceTolerance(settings.constraints))
    ensures !ActionIsReflected(m.pendingAction.value, position, settings.constraints)
  {
  }

  lemma EmittedIsTighter(m: ManagedPosition, position: BrokerPosition, tick: MarketTick, settings: ManagementSettings)
    requires Evaluate(m, position, tick, settings).action.Some?
    ensures TighterBy(m.side, Evaluate(m, position, tick, settings).action.value.targetSl, position.brokerSl,
                      PriceTolerance(settings.constraints))
  {
    EmittedActionIsSafe(m, position, tick, settings);
    hide Evaluate, PriceTolerance;
  }

  /** A look with nothing pending and nothing stale: the final error and a running backoff stay, all else asks at the gate. */
  lemma ResumedLook(w: ManagedPosition, position: BrokerPosition, tick: MarketTick, settings: ManagementSettings)
    requires w.pendingAction.None? && !AtBreakeven(w, position.brokerSl, settings) && w.retryCount <= settings.maxRetries + 1
    requires IsLive(w.phase) || w.phase == ErrorNonRetryable || w.phase == ErrorRetryable
    requires w.phase == ErrorRetryable ==>
               w.retryCount <= settings.maxRetries && (w.resumePhase.Some? ==> IsLive(w.resumePhase.value))
    ensures var d := EvaluateResumed(w, position, tick, settings);
            || (w.phase != ErrorNonRetryable && d.state.phase == WaitingBE && d.state.retryCount == w.retryCount
                && d.state.pendingAction == d.action)
            || (!IsLive(w.phase) && d.state == w && d.action.None?)
  {
    hide EvaluateActive, PriceTolerance, ProfitR, IdentityError, AtBreakeven;
    if IsLive(w.phase) {
      ShortLook(w, position, tick.ClosingPrice(w.side), settings);
    } else if w.phase == ErrorRetryable {
      SameBreakeven(w, LeaveBackoff(w), position, settings);
      ShortLook(LeaveBackoff(w), position, tick.ClosingPrice(w.side), settings);
    }
  }

  lemma QuoteIsALook(m: ManagedPosition, tick: MarketTick, position: BrokerPosition, settings: ManagementSettings)
    requires Consistent(m) && LooseShape(m) && SteadyPosition(m, position, settings) && Possible(m, Quote(tick))
    requires m.pendingAction.Some? ==> !ActionIsReflected(m.pendingAction.value, position, settings.constraints)
    ensures var d := Evaluate(m, position, tick, settings);
            if m.phase == Stale then d == EvaluateResumed(Unstale(m), position, tick, settings)
            else if m.pendingAction.Some? then d.state == m && d.action.None?
            else if m.phase == ErrorNonRetryable then d.state == m && d.action.None?
            else d == EvaluateResumed(m, position, tick, settings)
  {
    hide EvaluateActive, PriceTolerance, ProfitR, IdentityError, ActionIsReflected;
    if m.phase != Stale && m.pendingAction.Some? {
      Awaiting(m, position, tick.ClosingPrice(m.side), settings);
    }
  }

  lemma LooseQuote(m: ManagedPosition, proposed: nat, abandoned: nat, tick: MarketTick, position: BrokerPosition,
                   settings: ManagementSettings)
    requires LooseInvariant(m, proposed, abandoned, position, settings) && Possible(m, Quote(tick))
    ensures var d := Evaluate(m, position, tick, settings);
            && LooseInvariant(d.state, proposed + (if d.action.Some? then 1 else 0),
                              abandoned + GivenUp(m, Timely(Quote(tick))), position, settings)
            && d.state.retryCount == m.retryCount
  {
    hide Evaluate, EvaluateResumed, PriceTolerance, TighterBy, ActionIsReflected, AtBreakeven, SteadyPosition, Consistent;
    var d := Evaluate(m, position, tick, settings);
    EvaluateStep(m, position, tick, settings);
    SameBreakeven(m, d.state, position, settings);
    if m.pendingAction.Some? {
      NotReflected(m, position, settings);
    }
    QuoteIsALook(m, tick, position, settings);
    if d.action.Some? {
      EmittedIsTighter(m, position, tick, settings);
    }
    if m.phase == Stale {
      SameBreakeven(m, Unstale(m), position, settings);
      UnstaleShape(m);
      ResumedLook(Unstale(m), position, tick, settings);
    } else if m.pendingAction.None? {
      ResumedLook(m, position, tick, settings);
    }
  }

  /** Leaving staleness restores a shape without staleness and keeps the count. */
  lemma UnstaleShape(m: ManagedPosition)
    requires m.phase == Stale && Consistent(m) && LooseShape(m)
    ensures var w := Unstale(m);
            && w.phase != Stale && LooseShape(w) && w.retryCount == m.retryCount && w.pendingAction.None?
            && w.resumePhase.None? && (w.phase == ErrorNonRetryable <==> Exhausted(m))
  {
  }

  lemma Awaiting(m: ManagedPosition, position: BrokerPosition, closePrice: real, settings: ManagementSettings)
    requires m.pendingAction.Some? && !ActionIsReflected(m.pendingAction.value, position, settings.constraints)
    ensures EvaluateActive(m, position, closePrice, settings).state == m
    ensures EvaluateActive(m, position, closePrice, settings).action.None?
  {
  }

  lemma SameBreakeven(m: ManagedPosition, t: ManagedPosition, position: BrokerPosition, settings: ManagementSettings)
    requires SamePosition(m, t)
    ensures AtBreakeven(m, position.brokerSl, settings) == AtBreakeven(t, position.brokerSl, settings)
    ensures SteadyPosition(m, position, settings) == SteadyPosition(t, position, settings)
  {
  }

  lemma LooseError(m: ManagedPosition, proposed: nat, abandoned: nat, event: RetryEvent, position: BrokerPosition,
                   settings: ManagementSettings)
    requires event.TransientError?
    requires LooseInvariant(m, proposed, abandoned, position, settings) && Possible(m, event)
    ensures var t := Next(m, AsInput(event, position, settings));
            LooseInvariant(t, proposed, abandoned, position, settings) && t.retryCount == m.retryCount + 1
  {
    NextStep(m, AsInput(event, position, settings));
    hide PriceTolerance, AtBreakeven, IdentityError, RetryDelay;
    SameBreakeven(m, Next(m, AsInput(event, position, settings)), position, settings);
  }

  lemma LooseMiss(m: ManagedPosition, proposed: nat, abandoned: nat, unseen: BrokerPosition, tick: MarketTick,
                  position: BrokerPosition, settings: ManagementSettings)
    requires LooseInvariant(m, proposed, abandoned, position, settings) && (!unseen.isFresh || !tick.isFresh)
    ensures var t := Next(m, Observe(unseen, tick, settings));
            LooseInvariant(t, proposed, abandoned, position, settings) && t.retryCount == m.retryCount
    ensures Emitted(m, Observe(unseen, tick, settings)).None?
  {
    NextStep(m, Observe(unseen, tick, settings));
    hide PriceTolerance, AtBreakeven, IdentityError;
    SameBreakeven(m, Next(m, Observe(unseen, tick, settings)), position, settings);
  }

  lemma LooseStep(m: ManagedPosition, proposed: nat, abandoned: nat, event: LooseEvent, position: BrokerPosition,
                  settings: ManagementSettings)
    requires LooseInvariant(m, proposed, abandoned, position, settings) && LoosePossible(m, event)
    ensures LooseInvariant(LooseNext(m, event, position, settings), proposed + LooseProposed(m, event, position, settings),
                           abandoned + GivenUp(m, event), position, settings)
    ensures LooseNext(m, event, position, settings).retryCount >= m.retryCount
  {
    hide LooseInvariant;
    match event
    case Timely(Quote(tick)) => LooseQuote(m, proposed, abandoned, tick, position, settings);
    case Timely(TransientError(_, _)) => LooseError(m, proposed, abandoned, event.event, position, settings);
    case Missed(unseen, tick) => LooseMiss(m, proposed, abandoned, unseen, tick, position, settings);
  }

  lemma {:induction false} LooseRun(m: ManagedPosition, proposed: nat, abandoned: nat, events: seq<LooseEvent>,
                                    position: BrokerPosition, settings: ManagementSettings)
    requires LooseInvariant(m, proposed, abandoned, position, settings) && AllLoosePossible(m, events, position, settings)
    ensures LooseInvariant(LooseFinal(m, events, position, settings),
                           proposed + LooseProposals(m, events, position, settings),
                           abandoned + GivenUps(m, events, position, settings), position, settings)
    ensures LooseFinal(m, events, position, settings).retryCount >= m.retryCount
    decreases |events|
  {
    hide LooseInvariant, LooseNext, LooseProposed, GivenUp, LoosePossible;
    if events != [] {
      LooseStep(m, proposed, abandoned, events[0], position, settings);
      LooseRun(LooseNext(m, events[0], position, settings), proposed + LooseProposed(m, events[0], position, settings),
               abandoned + GivenUp(m, events[0]), events[1..], position, settings);
    }
  }

  /**
   While the stop is short of break-even, however many looks are stale: every proposal is answered by an error, given
   up for a stale look, or pending; errors never exceed `maxRetries + 1`, and then the machine has stopped for good.
   */
  lemma RetriesAreBoundedShortOfBreakeven(m: ManagedPosition, events: seq<LooseEvent>, position: BrokerPosition,
                                          settings: ManagementSettings)
    requires CleanStart(m, position, settings) && !AtBreakeven(m, position.brokerSl, settings)
    requires AllLoosePossible(m, events, position, settings)
    ensures var last := LooseFinal(m, events, position, settings);
            var proposals, abandoned := LooseProposals(m, events, position, settings), GivenUps(m, events, position, settings);
            && proposals == last.retryCount + abandoned + (if last.pendingAction.Some? then 1 else 0)
            && proposals <= settings.maxRetries + 1 + abandoned
            && (Exhausted(last) <==> last.retryCount == settings.maxRetries + 1)
  {
    hide AtBreakeven, PriceTolerance;
    LooseRun(m, 0, 0, events, position, settings);
  }
}
