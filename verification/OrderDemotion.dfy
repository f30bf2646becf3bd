/**
 The "stop below break-even" demotion, exactly: there is a run without hand edits in which it fires if and only
 if the broker terms and the position make it possible, which can be computed before the position is managed.
 */
module OrderDemotion {
  import opened Common
  import opened Grid
  import opened OrderManagement
  import opened StopNormalization
  import opened OrderActionSafety
  import opened OrderInvariant
  import opened OrderGateway
  import opened OrderBreakeven
  import opened OrderBroker
  import opened OrderProgress

  /** A run from the start of management, without hand edits, that ends in the demotion. */
  ghost predicate DemotingRun(states: seq<System>, events: seq<Event>, start: ManagedPosition, terms: Terms) {
    && HandsOff(states, events, terms) && states[0].machine == start
    && states[|events|].machine.lastError == Some(BrokerSlBelowBreakeven)
  }

  // ---------- the market that makes the machine ask ----------

  /** A closing price at which the clamped break-even target still rounds to the break-even stop. */
  function AskingPrice(m: ManagedPosition, terms: Terms): real {
    var c := terms.constraints;
    if m.side == Buy then RawBreakeven(Buy, m.entryPrice, terms.beOffset) + c.MinimumStopDistance() + 1.0
    else
      var highest := FloorTo(BreakevenStop(Sell, m.entryPrice, terms.beOffset, c), c.tickSize) - c.MinimumStopDistance();
      if highest < m.entryPrice / 2.0 then highest else m.entryPrice / 2.0
  }

  /** Rounding up does not pass a grid price that is not below. */
  lemma CeilToStopsAt(x: real, bound: real, step: GridStep)
    requires x <= bound && OnGrid(bound, step)
    ensures CeilTo(x, step) <= bound
  {
    hide CeilTo;
    CeilToIsLeast(x, step);
    if bound < CeilTo(x, step) {
      GridPointsAreApart(bound, CeilTo(x, step), step);
    }
  }

  /** Every price from break-even up to the stop's own tick rounds up to the break-even stop. */
  lemma SellTargetsRoundTogether(rawBe: real, price: real, tick: GridStep, quantum: GridStep)
    requires rawBe <= price <= FloorTo(RoundStop(rawBe, Sell, tick, quantum), tick)
    ensures RoundStop(price, Sell, tick, quantum) == RoundStop(rawBe, Sell, tick, quantum)
  {
    var stop := RoundStop(rawBe, Sell, tick, quantum);
    RoundStopMonotone(rawBe, price, Sell, tick, quantum);
    FloorToIsGreatest(stop, tick);
    CeilToStopsAt(price, FloorTo(stop, tick), tick);
    RoundStopIsOnQuantum(rawBe, Sell, tick, quantum);
    CeilToStopsAt(CeilTo(price, tick), stop, quantum);
  }

  lemma AskingPriceWorks(m: ManagedPosition, terms: Terms)
    requires m.entryPrice > 0.0 && Sendable(m.side, m.entryPrice, terms.beOffset, terms.constraints)
    ensures var c := terms.constraints;
            var closePrice := AskingPrice(m, terms);
            var rawBe := RawBreakeven(m.side, m.entryPrice, terms.beOffset);
            && closePrice > 0.0
            && (if m.side == Buy then closePrice > m.entryPrice else closePrice < m.entryPrice)
            && ClampedTarget(rawBe, m.side, closePrice, c) > 0.0
            && RoundStop(ClampedTarget(rawBe, m.side, closePrice, c), m.side, c.tickSize, DigitQuantum(c))
               == BreakevenStop(m.side, m.entryPrice, terms.beOffset, c)
  {
    var c := terms.constraints;
    var rawBe := RawBreakeven(m.side, m.entryPrice, terms.beOffset);
    var closePrice := AskingPrice(m, terms);
    var clamped := ClampedTarget(rawBe, m.side, closePrice, c);
    if m.side == Buy {
      hide RoundStop, FloorTo, PriceTolerance;
      assert clamped == rawBe;
    } else {
      RoomForSellStop(rawBe, c.tickSize, DigitQuantum(c));
      hide RoundStop, FloorTo, PriceTolerance;
      SellTargetsRoundTogether(rawBe, clamped, c.tickSize, DigitQuantum(c));
    }
  }

  /** Settings under which the asking price is exactly the break-even trigger. */
  function AskingSettings(m: ManagedPosition, terms: Terms): ManagementSettings
    requires ProfitR(m, AskingPrice(m, terms)) > 0.0
  {
    SettingsData(terms.constraints, None, ProfitR(m, AskingPrice(m, terms)), terms.beOffset, 2.0, 2.5, 1.5, 0, 3, 1.0, 30.0)
  }

  function AskingTick(m: ManagedPosition, terms: Terms): MarketTick {
    MarketTick(AskingPrice(m, terms), AskingPrice(m, terms), 0.0, true)
  }

  lemma AskingPriceIsProfit(m: ManagedPosition, terms: Terms)
    requires m.entryPrice > 0.0 && Sendable(m.side, m.entryPrice, terms.beOffset, terms.constraints)
    ensures ProfitR(m, AskingPrice(m, terms)) > 0.0
  {
    AskingPriceWorks(m, terms);
    hide AskingPrice, Sendable, RoundStop, ClampedTarget;
    var profit := if m.side == Buy then AskingPrice(m, terms) - m.entryPrice else m.entryPrice - AskingPrice(m, terms);
    PositiveQuotient(profit, Abs(m.entryPrice - m.initialSl));
  }

  lemma PositiveQuotient(x: real, d: real)
    requires x > 0.0 && d > 0.0
    ensures x / d > 0.0
  {
    DivMul(x, d);
  }

  lemma OwnTriggerIsReached(m: ManagedPosition, closePrice: real, c: SymbolConstraints)
    ensures RThresholdReached(m, ProfitR(m, closePrice), ProfitR(m, closePrice), c)
  {
    var risk := Abs(m.entryPrice - m.initialSl);
    assert risk > 0.0;
    var tolerance := PriceTolerance(c);
    hide PriceTolerance;
    PositiveQuotient(tolerance, risk);
  }

  /** A position just taken under management, with some stop and no take-profit at the broker. */
  function Opening(start: ManagedPosition, brokerSl: Option<real>): System {
    System(start, true, brokerSl, None, None)
  }

  predicate JustStarted(start: ManagedPosition) {
    && start.entryPrice > 0.0 && start.phase == WaitingBE && start.pendingAction.None? && start.resumePhase.None?
    && start.lastError.None?
  }

  /** A stop that the broker can quote and that a request for break-even changes. */
  ghost predicate LeavesRoom(start: ManagedPosition, brokerSl: Option<real>, terms: Terms) {
    var c := terms.constraints;
    var stop := BreakevenStop(start.side, start.entryPrice, terms.beOffset, c);
    && QuotableIfAny(brokerSl, c) && TighterBy(start.side, stop, brokerSl, PriceTolerance(c))
    && !PricesMatch(NormalizePrice(stop, c), PriceOrZero(brokerSl), c)
  }

  lemma OpeningMachineAsks(start: ManagedPosition, brokerSl: Option<real>, terms: Terms)
    requires JustStarted(start) && Sendable(start.side, start.entryPrice, terms.beOffset, terms.constraints)
    requires LeavesRoom(start, brokerSl, terms) && ProfitR(start, AskingPrice(start, terms)) > 0.0
    ensures var settings, tick := AskingSettings(start, terms), AskingTick(start, terms);
            var sys := Opening(start, brokerSl);
            && ReadyToAsk(sys, tick, settings, terms)
            && Evaluate(start, Snapshot(sys), tick, settings).action.Some?
            && TargetAt(sys, tick, settings)
               == BreakevenStop(start.side, start.entryPrice, terms.beOffset, terms.constraints)
  {
    var c := terms.constraints;
    var settings, tick, sys := AskingSettings(start, terms), AskingTick(start, terms), Opening(start, brokerSl);
    var closePrice := AskingPrice(start, terms);
    AskingPriceWorks(start, terms);
    OwnTriggerIsReached(start, closePrice, c);
    BreakevenStopIsShort(start.side, start.entryPrice, terms.beOffset, c);
    TolerancePositive(c);
    hide RoundStop, AskingPrice, ProfitR, RThresholdReached, ClampedTarget, EvaluateWaitingBE, Evaluate, PriceTolerance,
      NormalizePrice, PricesMatch, QuotableIfAny;
    assert WaitsUnprotected(start, Snapshot(sys), tick, settings);
    WaitingEvaluation(start, Snapshot(sys), tick, settings);
    GateOpensIff(start, Snapshot(sys), closePrice, settings);
  }

  // ---------- the run ----------

  /** A break-even stop is more than half a step above having no stop. */
  lemma BreakevenStopIsSeen(side: Side, entryPrice: real, beOffset: real, c: SymbolConstraints)
    requires Distinguishable(c) && BreakevenStop(side, entryPrice, beOffset, c) > 0.0
    ensures BreakevenStop(side, entryPrice, beOffset, c) > MatchTolerance(c)
    ensures BreakevenStop(side, entryPrice, beOffset, c) >= DigitQuantum(c)
  {
    var rawBe := RawBreakeven(side, entryPrice, beOffset);
    var tick: GridStep, quantum: GridStep := c.tickSize, DigitQuantum(c);
    var stop := BreakevenStop(side, entryPrice, beOffset, c);
    QuantumIsCoarse(c);
    ZeroIsQuotable(c);
    RoundStopIsOnQuantum(rawBe, side, tick, quantum);
    GridPointsAreApart(0.0, stop, quantum);
    hide FloorTo, CeilTo, DigitQuantum, OnGrid;
    if side == Buy {
      FloorToIsGreatest(rawBe, tick);
      FloorToIsGreatest(FloorTo(rawBe, tick), quantum);
      GridPointsAreApart(0.0, FloorTo(rawBe, tick), tick);
    } else {
      CeilToIsLeast(rawBe, tick);
      CeilToIsLeast(CeilTo(rawBe, tick), quantum);
      if CeilTo(rawBe, tick) > 0.0 {
        GridPointsAreApart(0.0, CeilTo(rawBe, tick), tick);
      }
    }
  }

  /** So is what the gateway makes of it. */
  lemma BreakevenRequestIsSeen(side: Side, entryPrice: real, beOffset: real, c: SymbolConstraints)
    requires Distinguishable(c) && BreakevenStop(side, entryPrice, beOffset, c) > 0.0
    ensures NormalizePrice(BreakevenStop(side, entryPrice, beOffset, c), c) > MatchTolerance(c)
  {
    var stop := BreakevenStop(side, entryPrice, beOffset, c);
    var tick: GridStep, quantum: GridStep := c.tickSize, DigitQuantum(c);
    QuantumIsCoarse(c);
    BreakevenStopIsSeen(side, entryPrice, beOffset, c);
    hide NearestTo, RoundStop, BreakevenStop, DigitQuantum;
    NearestToKeepsStep(stop, tick);
    NearestToIsNear(stop, tick);
    var ticked := NearestTo(stop, tick);
    NearestToIsNear(ticked, quantum);
    if quantum > tick {
      NearestToKeepsStep(ticked, quantum);
    } else if quantum == tick {
      NearestToFixesGrid(stop, tick);
      NearestToFixesGrid(ticked, quantum);
    }
  }

  lemma NoStopLeavesRoom(start: ManagedPosition, terms: Terms)
    requires Distinguishable(terms.constraints)
    requires BreakevenStop(start.side, start.entryPrice, terms.beOffset, terms.constraints) > 0.0
    ensures LeavesRoom(start, None, terms)
  {
    BreakevenRequestIsSeen(start.side, start.entryPrice, terms.beOffset, terms.constraints);
    hide BreakevenStop, NormalizePrice, MatchTolerance;
  }

  /** A request away from a quotable stop, on a position without take-profit, is sent. */
  lemma FirstRequestIsSent(action: DesiredAction, brokerSl: Option<real>, c: SymbolConstraints, guarded: bool)
    requires action.expectedBrokerSl == brokerSl && action.preserveTp.None? && QuotableIfAny(brokerSl, c)
    requires !PricesMatch(NormalizePrice(action.targetSl, c), PriceOrZero(brokerSl), c)
    ensures Rule(action, brokerSl, None, c, guarded).Send?
  {
    NormalizeKeepsZero(c);
    if brokerSl.Some? {
      NormalizeFixesGridPoints(brokerSl.value, c);
    }
    hide NormalizePrice;
  }

  /** The loosest placement that the broker may choose and the machine takes for the break-even stop. */
  function ShortStop(side: Side, entryPrice: real, terms: Terms): real {
    var c := terms.constraints;
    var stop := BreakevenStop(side, entryPrice, terms.beOffset, c);
    var requested, tolerance := NormalizePrice(stop, c), PriceTolerance(c);
    if side == Buy then (if requested - terms.slack > stop - tolerance then requested - terms.slack else stop - tolerance)
    else (if requested + terms.slack < stop + tolerance then requested + terms.slack else stop + tolerance)
  }

  lemma ShortStopIsPossible(side: Side, entryPrice: real, terms: Terms)
    requires Distinguishable(terms.constraints) && Demotable(side, entryPrice, terms)
    ensures var c := terms.constraints;
            var target, stop := BreakevenStop(side, entryPrice, terms.beOffset, c), ShortStop(side, entryPrice, terms);
            && stop > 0.0 && Abs(stop - NormalizePrice(target, c)) <= terms.slack
            && IsAtLeastAsProtective(Some(stop), target, side, PriceTolerance(c))
            && !BeyondBreakeven(side, stop, entryPrice, terms.beOffset, PriceTolerance(c))
  {
    var c := terms.constraints;
    BreakevenStopIsShort(side, entryPrice, terms.beOffset, c);
    BreakevenStopIsSeen(side, entryPrice, terms.beOffset, c);
    BreakevenRequestIsSeen(side, entryPrice, terms.beOffset, c);
    ToleranceIsFine(c);
    TolerancePositive(c);
    hide PriceTolerance, DigitQuantum, BreakevenStop, BreakevenGap, NormalizePrice, MatchTolerance, Distinguishable;
  }

  /** Seeing a stop short of break-even demotes a protected phase. */
  lemma ShortStopDemotes(m: ManagedPosition, position: BrokerPosition, tick: MarketTick, settings: ManagementSettings)
    requires IsProtectedPhase(m.phase) && m.pendingAction.None?
    requires position.isFresh && tick.isFresh && position.present
    requires IdentityError(m, position, settings.constraints).None? && tick.ClosingPrice(m.side) > 0.0
    requires !AtBreakeven(m, position.brokerSl, settings)
    ensures Evaluate(m, position, tick, settings).state.lastError == Some(BrokerSlBelowBreakeven)
  {
    hide PriceTolerance, RThresholdReached, ProfitR, NormalizeStopTarget, IsStrictlyMoreProtective, RawBreakeven;
  }

  /** Demotable terms: ask, execute as loosely as possible, confirm, look again. */
  lemma DemotionRun(start: ManagedPosition, brokerSl: Option<real>, terms: Terms)
    returns (states: seq<System>, events: seq<Event>)
    requires JustStarted(start) && terms.guarded && Distinguishable(terms.constraints)
    requires Demotable(start.side, start.entryPrice, terms) && LeavesRoom(start, brokerSl, terms)
    ensures DemotingRun(states, events, start, terms) && states[0].sl == brokerSl
  {
    var c := terms.constraints;
    AskingPriceIsProfit(start, terms);
    var settings, tick := AskingSettings(start, terms), AskingTick(start, terms);
    OpeningMachineAsks(start, brokerSl, terms);
    var s0, e0 := Opening(start, brokerSl), Look(tick, settings);
    var s1 := Step(s0, e0, terms);
    AskMeansBreakeven(s0, tick, settings, terms);
    EvaluateStep(start, Snapshot(s0), tick, settings);
    var a := AskedFor(s0, tick, settings);
    FirstRequestIsSent(a, brokerSl, c, true);
    var stop := ShortStop(start.side, start.entryPrice, terms);
    ShortStopIsPossible(start.side, start.entryPrice, terms);
    hide PriceTolerance, NormalizePrice, Evaluate, Demotable, RoundStop, ShortStop, LeavesRoom, Rule, AskingSettings, AskingTick,
      Consistent, ReadyToAsk;
    TolerancePositive(c);
    ConfirmedAskArms(s1, a, stop, settings, terms);
    var e1 := Execute(stop);
    var s2 := Step(s1, e1, terms);
    var e2 := Reply(ConfirmationOf(s2), settings);
    var s3 := Step(s2, e2, terms);
    var e3 := Look(tick, settings);
    LookAgainDemotes(s3, tick, settings, stop, terms);
    events := [e0, e1, e2, e3];
    states := [s0, s1, s2, s3, Step(s3, e3, terms)];
    ReadyIsEnabled(s0, tick, settings, terms);
  }

  lemma ReadyIsEnabled(sys: System, tick: MarketTick, settings: ManagementSettings, terms: Terms)
    requires ReadyToAsk(sys, tick, settings, terms)
    ensures Enabled(sys, Look(tick, settings), terms)
  {
  }

  lemma LookAgainDemotes(sys: System, tick: MarketTick, settings: ManagementSettings, stop: real, terms: Terms)
    requires Agrees(settings, terms) && sys.present && tick.isFresh && tick.ClosingPrice(sys.machine.side) > 0.0
    requires sys.machine.phase == BEActive && sys.machine.pendingAction.None? && sys.sl == Some(stop)
    requires !BeyondBreakeven(sys.machine.side, stop, sys.machine.entryPrice, terms.beOffset, PriceTolerance(terms.constraints))
    requires sys.machine.entryPrice > 0.0
    ensures Step(sys, Look(tick, settings), terms).machine.lastError == Some(BrokerSlBelowBreakeven)
  {
    TolerancePositive(terms.constraints);
    hide PriceTolerance, Evaluate;
    ShortStopDemotes(sys.machine, Snapshot(sys), tick, settings);
  }

  /** Such a run also starts from the initial stop, if that and the break-even stop are different quotable prices. */
  lemma DemotionFromInitialStop(start: ManagedPosition, terms: Terms) returns (states: seq<System>, events: seq<Event>)
    requires JustStarted(start) && terms.guarded && Distinguishable(terms.constraints)
    requires if start.side == Buy then start.initialSl < start.entryPrice else start.initialSl > start.entryPrice
    requires Demotable(start.side, start.entryPrice, terms) && Quotable(start.initialSl, terms.constraints)
    requires var stop := BreakevenStop(start.side, start.entryPrice, terms.beOffset, terms.constraints);
             Quotable(stop, terms.constraints) && stop != start.initialSl
    ensures DemotingRun(states, events, start, terms) && states[0].sl == Some(start.initialSl)
  {
    InitialStopLeavesRoom(start, terms);
    hide Demotable, LeavesRoom, DemotingRun, Distinguishable, Quotable;
    states, events := DemotionRun(start, Some(start.initialSl), terms);
  }

  lemma InitialStopLeavesRoom(start: ManagedPosition, terms: Terms)
    requires Distinguishable(terms.constraints) && Quotable(start.initialSl, terms.constraints)
    requires if start.side == Buy then start.initialSl < start.entryPrice else start.initialSl > start.entryPrice
    requires var stop := BreakevenStop(start.side, start.entryPrice, terms.beOffset, terms.constraints);
             Quotable(stop, terms.constraints) && stop != start.initialSl
    ensures LeavesRoom(start, Some(start.initialSl), terms)
  {
    var c := terms.constraints;
    var tick: GridStep, quantum: GridStep := c.tickSize, DigitQuantum(c);
    var rawBe := RawBreakeven(start.side, start.entryPrice, terms.beOffset);
    var stop := BreakevenStop(start.side, start.entryPrice, terms.beOffset, c);
    RoundStopFixesGridPoints(start.initialSl, start.side, tick, quantum);
    NormalizeFixesGridPoints(stop, c);
    ToleranceIsFine(c);
    TolerancePositive(c);
    if start.side == Buy {
      RoundStopMonotone(start.initialSl, rawBe, Buy, tick, quantum);
      hide RoundStop, NormalizePrice, PriceTolerance, DigitQuantum, OnGrid;
      GridPointsAreApart(start.initialSl, stop, DigitQuantum(c));
      QuotablePricesDoNotMatch(start.initialSl, stop, c);
    } else {
      RoundStopMonotone(rawBe, start.initialSl, Sell, tick, quantum);
      hide RoundStop, NormalizePrice, PriceTolerance, DigitQuantum, OnGrid;
      GridPointsAreApart(stop, start.initialSl, DigitQuantum(c));
      QuotablePricesDoNotMatch(stop, start.initialSl, c);
    }
  }

  /**
   From the start of management, whatever is lost, delayed, rejected or stale, the demotion can fire if and only
   if the break-even stop is sendable but rounded, and gateway and broker may place it where the machine takes it
   for the target and yet more than the tolerance short of break-even.
   */
  lemma DemotionFiresIff(positionId: int, side: Side, entryPrice: real, initialSl: real, terms: Terms)
    requires StartManagement(positionId, side, entryPrice, initialSl).Ok?
    requires terms.guarded && Distinguishable(terms.constraints)
    ensures (exists states, events ::
               DemotingRun(states, events, StartManagement(positionId, side, entryPrice, initialSl).value, terms))
       <==> Demotable(side, entryPrice, terms)
  {
    var start := StartManagement(positionId, side, entryPrice, initialSl).value;
    if Demotable(side, entryPrice, terms) {
      NoStopLeavesRoom(start, terms);
      var states, events := DemotionRun(start, None, terms);
    } else {
      forall states, events
        ensures !DemotingRun(states, events, start, terms)
      {
        NoDemotingRun(states, events, start, terms);
      }
    }
  }

  lemma NoDemotingRun(states: seq<System>, events: seq<Event>, start: ManagedPosition, terms: Terms)
    requires Distinguishable(terms.constraints) && !Demotable(start.side, start.entryPrice, terms)
    ensures !DemotingRun(states, events, start, terms)
  {
    hide Demotable, Distinguishable, Step, Enabled, Started;
    if HandsOff(states, events, terms) && states[0].machine == start {
      DemotionNeverFires(states, events, terms, |events|);
    }
  }
}
