/**
 Why the promises about broker runs cannot be stronger: concrete runs in which a weaker broker, or a stop set by
 hand next to price zero, breaks them.  All start from a position at 100 on a grid of whole prices.
 */
module OrderBrokerLimits {
  import opened Common
  import opened Grid
  import opened OrderManagement
  import opened OrderActionSafety
  import opened OrderInvariant
  import opened OrderGateway
  import opened OrderBreakeven
  import opened OrderBroker
  import opened OrderProgress
  import opened OrderDemotion

  const BUY_AT_100: ManagedPosition :=
    ManagedState(1, Buy, 100.0, 90.0, WaitingBE, None, None, None, 0, 0.0, None)
  const AT_110 := MarketTick(110.0, 110.0, 0.0, true)
  const SELL_AT_100: ManagedPosition :=
    ManagedState(1, Sell, 100.0, 110.0, WaitingBE, None, None, None, 0, 0.0, None)
  const AT_90 := MarketTick(90.0, 90.0, 0.0, true)
  const SETTINGS: ManagementSettings := SettingsData(WHOLE, None, 1.0, 0.0, 2.0, 2.5, 1.5, 1, 3, 1.0, 30.0)

  function BreakevenAt100(side: Side, brokerSl: Option<real>, closePrice: real): DesiredAction {
    DesiredAction(Breakeven, 1, side, 100.0, None, brokerSl, WaitingBE, closePrice, 1.0)
  }

  lemma WholePrices()
    ensures DigitQuantum(WHOLE) == 1.0 && PriceTolerance(WHOLE) == 0.000001000001 && MatchTolerance(WHOLE) == 0.5
    ensures RoundStop(100.0, Buy, 1.0, 1.0) == 100.0 && RoundStop(100.0, Sell, 1.0, 1.0) == 100.0
    ensures NormalizePrice(100.0, WHOLE) == 100.0 && NormalizePrice(90.0, WHOLE) == 90.0 && NormalizePrice(0.0, WHOLE) == 0.0
  {
    assert Pow10(0) == 1.0;
    assert FloorTo(100.0, 1.0) == 100.0 && CeilTo(100.0, 1.0) == 100.0;
  }

  /** At one R the machine asks for a stop at 100. */
  lemma BuyAsksFor100()
    ensures var sys := System(BUY_AT_100, true, Some(90.0), None, None);
            var a := BreakevenAt100(Buy, Some(90.0), 110.0);
            forall terms: Terms :: Step(sys, Look(AT_110, SETTINGS), terms)
              == System(BUY_AT_100.(pendingAction := Some(a), extremePrice := Some(110.0)), true, Some(90.0), None, Some(a))
  {
    hide RoundStop, DigitQuantum, PriceTolerance;
    WholePrices();
  }

  lemma SellAsksFor100()
    ensures var sys := System(SELL_AT_100, true, None, None, None);
            var a := BreakevenAt100(Sell, None, 90.0);
            forall terms: Terms :: Step(sys, Look(AT_90, SETTINGS), terms)
              == System(SELL_AT_100.(pendingAction := Some(a), extremePrice := Some(90.0)), true, None, None, Some(a))
  {
    hide RoundStop, DigitQuantum, PriceTolerance;
    WholePrices();
  }

  lemma WholesAreQuotable(k: int)
    ensures Quotable(k as real, WHOLE)
  {
    WholePrices();
    assert k as real == Multiple(k, 1.0);
  }

  lemma OffGridBreakevenStop()
    ensures BreakevenStop(Buy, 100.0, PriceTolerance(WHOLE), WHOLE) == 100.0
    ensures BreakevenGap(Buy, 100.0, PriceTolerance(WHOLE), WHOLE) == PriceTolerance(WHOLE)
  {
    WholePrices();
    var rawBe := 100.0 + PriceTolerance(WHOLE);
    assert (rawBe / 1.0).Floor == 100;
    assert FloorTo(rawBe, 1.0) == 100.0;
  }

  lemma WholeTermsAreDemotable(terms: Terms)
    requires terms.constraints == WHOLE && terms.beOffset == PriceTolerance(WHOLE) && terms.slack > 0.0
    ensures Demotable(Buy, 100.0, terms)
  {
    hide BreakevenStop, BreakevenGap, NormalizePrice, PriceTolerance, MatchTolerance, DigitQuantum;
    OffGridBreakevenStop();
    WholePrices();
  }

  /** An offset off the grid by just the tolerance: then any positive slack is enough for a demotion. */
  lemma SlackAllowsDemotion(slack: real) returns (states: seq<System>, events: seq<Event>, terms: Terms)
    requires 0.0 < slack <= MatchTolerance(WHOLE)
    ensures terms == TermsData(WHOLE, PriceTolerance(WHOLE), slack, true)
    ensures DemotingRun(states, events, BUY_AT_100, terms) && states[0].sl == Some(90.0)
  {
    hide Demotable, DemotingRun, Quotable, BreakevenStop, PriceTolerance, MatchTolerance;
    terms := TermsData(WHOLE, PriceTolerance(WHOLE), slack, true);
    WholeTermsAreDemotable(terms);
    OffGridBreakevenStop();
    WholesAreQuotable(90);
    WholesAreQuotable(100);
    states, events := DemotionFromInitialStop(BUY_AT_100, terms);
  }

  // ---------- confirmations that end in the error ----------

  /** Settings that ask for no minimum step. */
  const EAGER: ManagementSettings := SETTINGS.(minimumUpdateTicks := 0)

  lemma EagerAsksFor100(brokerSl: Option<real>, brokerTp: Option<real>)
    requires brokerSl.Some? && 0.0 < brokerSl.value <= 99.9
    ensures var sys := System(BUY_AT_100, true, brokerSl, brokerTp, None);
            var a := BreakevenAt100(Buy, brokerSl, 110.0).(preserveTp := brokerTp);
            forall terms: Terms :: Step(sys, Look(AT_110, EAGER), terms)
              == System(BUY_AT_100.(pendingAction := Some(a), extremePrice := Some(110.0)), true, brokerSl, brokerTp, Some(a))
  {
    hide RoundStop, DigitQuantum, PriceTolerance;
    WholePrices();
  }

  function EagerTerms(): Terms {
    TermsData(WHOLE, 0.0, 0.0, true)
  }

  lemma EagerTermsAreTerms()
    ensures EagerTerms().constraints == WHOLE && EagerTerms().guarded && EagerTerms().slack == 0.0
  {
  }

  /** A stop at 99.6 is within half a step of 100: confirmed without being sent, and the machine gives up. */
  lemma UnsentRequestEndsInError() returns (states: seq<System>, events: seq<Event>)
    ensures Trace(states, events, EagerTerms()) && Started(states[0]) && |events| == 2
    ensures var asked := states[1];
            asked.inFlight.Some? && Rule(asked.inFlight.value, asked.sl, asked.tp, WHOLE, true).NothingToChange?
    ensures events[1].Reply? && events[1].confirmation == ConfirmationOf(states[1])
    ensures states[2].machine.phase == ErrorNonRetryable
  {
    WholePrices();
    EagerAsksFor100(Some(99.6), None);
    HundredStaysPut();
    var terms := EagerTerms();
    hide Evaluate, NormalizePrice, MatchTolerance, PriceTolerance;
    var s0, e0 := System(BUY_AT_100, true, Some(99.6), None, None), Look(AT_110, EAGER);
    var s1 := Step(s0, e0, terms);
    var e1 := Reply(ConfirmationOf(s1), EAGER);
    states, events := [s0, s1, Step(s1, e1, terms)], [e0, e1];
  }

  lemma HundredStaysPut()
    ensures NormalizePrice(99.6, WHOLE) == 100.0 && NormalizePrice(120.4, WHOLE) == 120.0
  {
    WholePrices();
    assert RoundHalfUp(99.6) == 100 && RoundHalfUp(120.4) == 120 && RoundHalfUp(100.0) == 100 && RoundHalfUp(120.0) == 120;
    assert NearestTo(99.6, 1.0) == 100.0 && NearestTo(120.4, 1.0) == 120.0;
  }

  /** A take-profit at 120.4 comes back as 120: the stop was placed exactly, and the machine gives up all the same. */
  lemma RoundedTakeProfitEndsInError() returns (states: seq<System>, events: seq<Event>)
    ensures Trace(states, events, EagerTerms()) && Started(states[0]) && |events| == 3
    ensures events[1] == Execute(100.0) && states[2].sl == Some(100.0)
    ensures events[2].Reply? && events[2].confirmation == ConfirmationOf(states[2])
    ensures states[3].machine.phase == ErrorNonRetryable
  {
    WholePrices();
    EagerAsksFor100(Some(90.0), Some(120.4));
    HundredStaysPut();
    var terms := EagerTerms();
    hide Evaluate, NormalizePrice, MatchTolerance, PriceTolerance;
    var s0, e0 := System(BUY_AT_100, true, Some(90.0), Some(120.4), None), Look(AT_110, EAGER);
    var s1 := Step(s0, e0, terms);
    var e1 := Execute(100.0);
    var s2 := Step(s1, e1, terms);
    var e2 := Reply(ConfirmationOf(s2), EAGER);
    states, events := [s0, s1, s2, Step(s2, e2, terms)], [e0, e1, e2];
  }

  // ---------- hand edits ----------

  /** A request sent without the comparison can undo a stop the user has just tightened by hand. */
  lemma UnguardedRequestLoosensAnEdit() returns (states: seq<System>, events: seq<Event>, terms: Terms)
    ensures !terms.guarded && terms.slack == 0.0
    ensures Trace(states, events, terms) && Started(states[0])
    ensures |events| == 3 && !events[2].UserEdits?
    ensures !NoLooser(states[2].machine.side, states[2].sl, states[3].sl)
  {
    WholePrices();
    terms := TermsData(WHOLE, 0.0, 0.0, false);
    BuyAsksFor100();
    hide Evaluate, NormalizePrice, MatchTolerance, PriceTolerance;
    var s0 := System(BUY_AT_100, true, Some(90.0), None, None);
    var e0 := Look(AT_110, SETTINGS);
    var s1 := Step(s0, e0, terms);
    var e1 := UserEdits(Some(105.0), None);
    var s2 := Step(s1, e1, terms);
    var e2 := Execute(100.0);
    var s3 := Step(s2, e2, terms);
    events := [e0, e1, e2];
    states := [s0, s1, s2, s3];
  }

  /** The overlooked stop exists: a SELL stop set by hand at 0.4 is taken for no stop and replaced by 100. */
  lemma GuardedRequestOverlooksAStop() returns (states: seq<System>, events: seq<Event>, terms: Terms)
    ensures terms.guarded && terms.slack == 0.0
    ensures Trace(states, events, terms) && Started(states[0])
    ensures |events| == 3 && events[2].Execute? && Overlooked(states[2], terms)
    ensures !NoLooser(states[2].machine.side, states[2].sl, states[3].sl)
  {
    WholePrices();
    terms := TermsData(WHOLE, 0.0, 0.0, true);
    SellAsksFor100();
    hide Evaluate, NormalizePrice, MatchTolerance, PriceTolerance;
    var s0 := System(SELL_AT_100, true, None, None, None);
    var e0 := Look(AT_90, SETTINGS);
    var s1 := Step(s0, e0, terms);
    var e1 := UserEdits(Some(0.4), None);
    var s2 := Step(s1, e1, terms);
    var e2 := Execute(100.0);
    var s3 := Step(s2, e2, terms);
    events := [e0, e1, e2];
    states := [s0, s1, s2, s3];
  }
}
