/**
 How break-even is reached: a look that asks for it, an execution and a confirmation.  With prices the broker
 can quote this always succeeds as soon as the trigger is reached and the price is far enough from break-even.
 */
module OrderProgress {
  import opened Common
  import opened Grid
  import opened OrderManagement
  import opened StopNormalization
  import opened OrderActionSafety
  import opened OrderInvariant
  import opened OrderTrailing
  import opened OrderGateway
  import opened OrderBreakeven
  import opened OrderBroker

  /** The machine waits for break-even with nothing under way and is about to see its own, unprotected position. */
  ghost predicate ReadyToAsk(sys: System, tick: MarketTick, settings: ManagementSettings, terms: Terms) {
    && Consistent(sys.machine) && sys.inFlight.None? && sys.present && Agrees(settings, terms)
    && WaitsUnprotected(sys.machine, Snapshot(sys), tick, settings)
  }

  function AskedFor(sys: System, tick: MarketTick, settings: ManagementSettings): DesiredAction
    requires Evaluate(sys.machine, Snapshot(sys), tick, settings).action.Some?
  {
    Evaluate(sys.machine, Snapshot(sys), tick, settings).action.value
  }

  /** The break-even target of a ready machine at this price, rounded. */
  function TargetAt(sys: System, tick: MarketTick, settings: ManagementSettings): real {
    var c, m := settings.constraints, sys.machine;
    RoundStop(ClampedTarget(RawBreakeven(m.side, m.entryPrice, settings.beOffset), m.side, tick.ClosingPrice(m.side), c),
              m.side, c.tickSize, DigitQuantum(c))
  }

  lemma AskMeansBreakeven(sys: System, tick: MarketTick, settings: ManagementSettings, terms: Terms)
    requires ReadyToAsk(sys, tick, settings, terms)
    requires Evaluate(sys.machine, Snapshot(sys), tick, settings).action.Some?
    ensures var a := AskedFor(sys, tick, settings);
            var after := Step(sys, Look(tick, settings), terms);
            && a.reason == Breakeven && a.side == sys.machine.side && a.targetSl == TargetAt(sys, tick, settings)
            && a.expectedBrokerSl == sys.sl && a.preserveTp == sys.tp
            && after.inFlight == Some(a) && after.machine.pendingAction == Some(a)
            && after.sl == sys.sl && after.tp == sys.tp && after.present == sys.present
            && SamePosition(sys.machine, after.machine) && after.machine.phase == WaitingBE
  {
    hide Evaluate, RoundStop, ClampedTarget, PriceTolerance, OnGrid;
    EmittedActionIsSafe(sys.machine, Snapshot(sys), tick, settings);
    EmittedTargetForm(sys.machine, Snapshot(sys), tick, settings);
    EmissionNeedsNoPending(sys.machine, Observe(Snapshot(sys), tick, settings));
    EvaluateStep(sys.machine, Snapshot(sys), tick, settings);
  }

  function ConfirmationOf(sys: System): ActionConfirmation {
    ActionConfirmation(Confirmed, sys.sl, sys.tp, 0.0, "", Some(true))
  }

  /** A request placed near enough to its target and confirmed arms the machine. */
  lemma ConfirmedAskArms(sys: System, action: DesiredAction, stop: real, settings: ManagementSettings, terms: Terms)
    requires Consistent(sys.machine) && Agrees(settings, terms) && sys.present
    requires sys.inFlight == Some(action) && sys.machine.pendingAction == Some(action) && action.reason == Breakeven
    requires stop > 0.0 && Rule(action, sys.sl, sys.tp, terms.constraints, terms.guarded).Send?
    requires Abs(stop - NormalizePrice(action.targetSl, terms.constraints)) <= terms.slack
    requires IsAtLeastAsProtective(Some(stop), action.targetSl, action.side, PriceTolerance(terms.constraints))
    requires SameOptionalPrice(PlacedTp(action, sys.tp, terms), action.preserveTp, PriceTolerance(terms.constraints))
    ensures Enabled(sys, Execute(stop), terms)
    ensures var executed := Step(sys, Execute(stop), terms);
            var reply := Reply(ConfirmationOf(executed), settings);
            var after := Step(executed, reply, terms);
            && Enabled(executed, reply, terms)
            && after.machine == ApplyConfirmedAction(sys.machine, action) && after.machine.phase == BEActive
            && after.sl == Some(stop) && after.inFlight.None? && after.present && after.tp == executed.tp
  {
    hide Rule, NormalizePrice, PriceTolerance, SameOptionalPrice, Consistent, IsAtLeastAsProtective;
  }

  // ---------- truthful confirmations that fail ----------

  /** What the broker shows after the gateway has dealt with a request: exactly what was sent, or no change at all. */
  function Dealt(sys: System, action: DesiredAction, terms: Terms): System {
    if Rule(action, sys.sl, sys.tp, terms.constraints, terms.guarded).Send?
    then Step(sys, Execute(NormalizePrice(action.targetSl, terms.constraints)), terms)
    else sys
  }

  /** The request changes the stop, and rounding it half-up leaves stop and take-profit within the machine's tolerance. */
  predicate SurvivesRounding(action: DesiredAction, sys: System, terms: Terms) {
    var c := terms.constraints;
    && Rule(action, sys.sl, sys.tp, c, terms.guarded).Send?
    && IsAtLeastAsProtective(Some(NormalizePrice(action.targetSl, c)), action.targetSl, action.side, PriceTolerance(c))
    && SameOptionalPrice(PlacedTp(action, sys.tp, terms), action.preserveTp, PriceTolerance(c))
  }

  /**
   A request the gateway does not refuse, carried out to the letter and confirmed truthfully, ends in the
   non-retryable error unless it is sent and survives the gateway's rounding of both prices.
   */
  lemma TruthfulConfirmationFailsIff(sys: System, action: DesiredAction, settings: ManagementSettings, terms: Terms)
    requires Consistent(sys.machine) && Agrees(settings, terms) && NotYetExecuted(action, sys, terms)
    requires sys.inFlight == Some(action) && sys.machine.pendingAction == Some(action)
    requires !Rule(action, sys.sl, sys.tp, terms.constraints, terms.guarded).Refused?
    ensures var dealt := Dealt(sys, action, terms);
            var after := Step(dealt, Reply(ConfirmationOf(dealt), settings), terms).machine;
            && (after.phase == ErrorNonRetryable <==> !SurvivesRounding(action, sys, terms))
            && (SurvivesRounding(action, sys, terms) ==> after == ApplyConfirmedAction(sys.machine, action))
  {
    NotExecutedIsElsewhere(action, sys, terms);
    hide Rule, NormalizePrice, PriceTolerance, SameOptionalPrice, IsAtLeastAsProtective, NotYetExecuted;
  }

  lemma NotExecutedIsElsewhere(action: DesiredAction, sys: System, terms: Terms)
    requires NotYetExecuted(action, sys, terms)
    ensures action.targetSl > 0.0 ==> action.targetSl != PriceOrZero(sys.sl)
    ensures !IsAtLeastAsProtective(sys.sl, action.targetSl, action.side, PriceTolerance(terms.constraints))
  {
    hide PriceTolerance;
    TolerancePositive(terms.constraints);
  }

  /** In particular, a request that is confirmed without being sent, because the stop is within half a step of it. */
  lemma UnsentConfirmationFails(sys: System, action: DesiredAction, settings: ManagementSettings, terms: Terms)
    requires Consistent(sys.machine) && Agrees(settings, terms) && NotYetExecuted(action, sys, terms)
    requires sys.inFlight == Some(action) && sys.machine.pendingAction == Some(action)
    requires Rule(action, sys.sl, sys.tp, terms.constraints, terms.guarded).NothingToChange?
    ensures Step(sys, Reply(ConfirmationOf(sys), settings), terms).machine.phase == ErrorNonRetryable
  {
    hide Rule, NotYetExecuted, Step, Consistent;
    TruthfulConfirmationFailsIff(sys, action, settings, terms);
  }

  /** With quotable prices nothing of the kind happens: every request is sent and survives rounding. */
  lemma QuotableRequestSurvives(sys: System, action: DesiredAction, terms: Terms)
    requires Distinguishable(terms.constraints) && NotYetExecuted(action, sys, terms)
    requires action.targetSl > 0.0 && Quotable(action.targetSl, terms.constraints)
    requires QuotableIfAny(sys.sl, terms.constraints) && QuotableIfAny(sys.tp, terms.constraints)
    requires action.expectedBrokerSl == sys.sl && action.preserveTp == sys.tp
    ensures SurvivesRounding(action, sys, terms)
  {
    hide Rule, NormalizePrice, PriceTolerance, Quotable, Distinguishable;
    NotExecutedIsElsewhere(action, sys, terms);
    QuotableRequestIsSent(action, sys.sl, sys.tp, terms.constraints, terms.guarded);
    TolerancePositive(terms.constraints);
  }

  // ---------- prices the broker can quote ----------

  ghost predicate Quotable(price: real, c: SymbolConstraints) {
    OnGrid(price, c.tickSize) && OnGrid(price, DigitQuantum(c))
  }

  ghost predicate QuotableIfAny(price: Option<real>, c: SymbolConstraints) {
    price.Some? ==> Quotable(price.value, c)
  }

  lemma ZeroIsQuotable(c: SymbolConstraints)
    ensures Quotable(0.0, c)
  {
    assert Multiple(0, c.tickSize) == 0.0 && Multiple(0, DigitQuantum(c)) == 0.0;
  }

  lemma QuotablePricesDoNotMatch(a: real, b: real, c: SymbolConstraints)
    requires Distinguishable(c) && Quotable(a, c) && Quotable(b, c) && a < b
    ensures !PricesMatch(a, b, c) && !PricesMatch(b, a, c)
  {
    QuantumIsCoarse(c);
    GridPointsAreApart(a, b, c.tickSize);
    GridPointsAreApart(a, b, DigitQuantum(c));
    hide DigitQuantum, OnGrid;
  }

  lemma QuotableRequestIsSent(action: DesiredAction, currentSl: Option<real>, currentTp: Option<real>, c: SymbolConstraints,
                              guarded: bool)
    requires Distinguishable(c) && Quotable(action.targetSl, c)
    requires QuotableIfAny(currentSl, c) && QuotableIfAny(currentTp, c)
    requires action.expectedBrokerSl == currentSl && action.preserveTp == currentTp
    requires action.targetSl != PriceOrZero(currentSl)
    ensures Rule(action, currentSl, currentTp, c, guarded).Send?
    ensures NormalizePrice(action.targetSl, c) == action.targetSl
    ensures currentTp.Some? ==> NormalizePrice(currentTp.value, c) == currentTp.value
  {
    ZeroIsQuotable(c);
    NormalizeFixesGridPoints(action.targetSl, c);
    NormalizeFixesGridPoints(PriceOrZero(currentSl), c);
    NormalizeFixesGridPoints(PriceOrZero(currentTp), c);
    if action.targetSl < PriceOrZero(currentSl) {
      QuotablePricesDoNotMatch(action.targetSl, PriceOrZero(currentSl), c);
    } else {
      QuotablePricesDoNotMatch(PriceOrZero(currentSl), action.targetSl, c);
    }
    hide NormalizePrice, OnGrid;
  }

  /** The market lets break-even through: trigger reached, and the nearest allowed stop at or beyond break-even. */
  predicate MarketAllows(m: ManagedPosition, closePrice: real, settings: ManagementSettings) {
    var c := settings.constraints;
    && AtOrBeyond(m.side, closePrice, PriceAtR(m, settings.beTriggerR), PriceTolerance(c))
    && AtOrBeyond(m.side, NearestAllowedStop(m.side, closePrice, c), RawBreakeven(m.side, m.entryPrice, settings.beOffset), 0.0)
  }

  lemma ReadyMachineAsks(sys: System, tick: MarketTick, settings: ManagementSettings, terms: Terms)
    requires ReadyToAsk(sys, tick, settings, terms)
    requires var rawBe := RawBreakeven(sys.machine.side, sys.machine.entryPrice, settings.beOffset);
             && rawBe > 0.0 && Quotable(rawBe, settings.constraints)
             && MarketAllows(sys.machine, tick.ClosingPrice(sys.machine.side), settings)
             && IsStrictlyMoreProtective(rawBe, sys.sl, sys.machine.side,
                                         MinimumUpdate(settings),
                                         PriceTolerance(settings.constraints))
    ensures Evaluate(sys.machine, Snapshot(sys), tick, settings).action.Some?
    ensures TargetAt(sys, tick, settings) == RawBreakeven(sys.machine.side, sys.machine.entryPrice, settings.beOffset)
  {
    var m, c, closePrice := sys.machine, settings.constraints, tick.ClosingPrice(sys.machine.side);
    var rawBe := RawBreakeven(m.side, m.entryPrice, settings.beOffset);
    assert ClampedTarget(rawBe, m.side, closePrice, c) == rawBe;
    RoundStopFixesGridPoints(rawBe, m.side, c.tickSize, DigitQuantum(c));
    TriggerIsAPriceLevel(m, closePrice, settings.beTriggerR, c);
    GateOpensIff(m, Snapshot(sys), closePrice, settings);
    WaitingEvaluation(m, Snapshot(sys), tick, settings);
    hide Evaluate, EvaluateWaitingBE, RoundStop, RThresholdReached, ProfitR, PriceAtR, ClampedTarget, OnGrid,
      IsStrictlyMoreProtective, IdentityError, DigitQuantum, AtBreakeven;
  }

  lemma WaitingEvaluation(state: ManagedPosition, position: BrokerPosition, tick: MarketTick, settings: ManagementSettings)
    requires WaitsUnprotected(state, position, tick, settings)
    ensures Evaluate(state, position, tick, settings)
         == EvaluateWaitingBE(state, position, tick.ClosingPrice(state.side), settings)
  {
    hide EvaluateWaitingBE;
  }

  /**
   Progress.  When break-even and the current stop and take-profit are prices the broker can quote, one look at
   a market that allows it, one exact execution and its confirmation bring the machine to BE_ACTIVE.
   */
  lemma BreakevenIsReached(sys: System, tick: MarketTick, settings: ManagementSettings, terms: Terms)
    returns (states: seq<System>, events: seq<Event>)
    requires ReadyToAsk(sys, tick, settings, terms) && Distinguishable(terms.constraints)
    requires QuotableIfAny(sys.sl, terms.constraints) && QuotableIfAny(sys.tp, terms.constraints)
    requires var rawBe := RawBreakeven(sys.machine.side, sys.machine.entryPrice, settings.beOffset);
             && rawBe > 0.0 && Quotable(rawBe, settings.constraints)
             && MarketAllows(sys.machine, tick.ClosingPrice(sys.machine.side), settings)
             && IsStrictlyMoreProtective(rawBe, sys.sl, sys.machine.side,
                                         MinimumUpdate(settings),
                                         PriceTolerance(settings.constraints))
    ensures Trace(states, events, terms) && |events| == 3 && states[0] == sys
    ensures events[0] == Look(tick, settings) && events[1].Execute? && events[2].Reply?
    ensures states[3].machine.phase == BEActive
    ensures states[3].sl == Some(RawBreakeven(sys.machine.side, sys.machine.entryPrice, settings.beOffset))
  {
    var rawBe := RawBreakeven(sys.machine.side, sys.machine.entryPrice, settings.beOffset);
    ReadyMachineAsks(sys, tick, settings, terms);
    AskMeansBreakeven(sys, tick, settings, terms);
    var a := AskedFor(sys, tick, settings);
    var c := terms.constraints;
    var e0 := Look(tick, settings);
    var s1 := Step(sys, e0, terms);
    NotThereYet(rawBe, sys.sl, sys.machine.side, settings);
    QuotableRequestIsSent(a, s1.sl, s1.tp, c, terms.guarded);
    EvaluateStep(sys.machine, Snapshot(sys), tick, settings);
    hide Evaluate, Quotable, RoundStop, ClampedTarget, Rule, NormalizePrice, Consistent, MarketAllows, IsStrictlyMoreProtective,
      TargetAt, PriceTolerance, Distinguishable, WaitsUnprotected, RawBreakeven;
    TolerancePositive(c);
    ConfirmedAskArms(s1, a, rawBe, settings, terms);
    var e1 := Execute(rawBe);
    var s2 := Step(s1, e1, terms);
    var e2 := Reply(ConfirmationOf(s2), settings);
    var s3 := Step(s2, e2, terms);
    hide Step, ConfirmationOf;
    events := [e0, e1, e2];
    states := [sys, s1, s2, s3];
    assert Enabled(sys, e0, terms);
  }

  lemma TolerancePositive(c: SymbolConstraints)
    ensures PriceTolerance(c) > 0.0
  {
  }

  lemma NotThereYet(target: real, brokerSl: Option<real>, side: Side, settings: ManagementSettings)
    requires target > 0.0
    requires IsStrictlyMoreProtective(target, brokerSl, side,
                                      MinimumUpdate(settings),
                                      PriceTolerance(settings.constraints))
    ensures target != PriceOrZero(brokerSl)
  {
    hide PriceTolerance;
  }
}
