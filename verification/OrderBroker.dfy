/**
 The order machine run against an unreliable broker.  A request is checked by the gateway and, if that sends
 it, may be executed (up to a rounding slack), dropped, answered late, wrongly or not at all; snapshots may be
 stale; the position may close; the user may pause, resume and, in some runs, move the stop by hand.  Checking
 and executing a request is one step, a request's fate is settled before the next fresh snapshot, and CONFIRMED
 results carry the stop and take-profit the broker really has.
 */
module OrderBroker {
  import opened Common
  import opened OrderManagement
  import opened OrderActionSafety
  import opened OrderInvariant
  import opened OrderBreakeven
  import opened OrderGateway
  import Grid

  /**
   What stays fixed over a run.  `slack` is how far from the requested stop the broker may place it, at most the
   half step within which the gateway takes a placement for the one requested; `guarded` says whether the gateway compares the position with what the machine saw, as the order manager
   always has it do.
   */
  datatype TermsData = TermsData(constraints: SymbolConstraints, beOffset: real, slack: real, guarded: bool) {
    predicate Valid() {
      beOffset >= 0.0 && 0.0 <= slack <= MatchTolerance(constraints)
    }
  }

  type Terms = t: TermsData | t.Valid() witness TermsData(ConstraintData(1.0, 1.0, 0, 0, 0), 0.0, 0.0, false)

  datatype System = System(
    machine: ManagedPosition, present: bool, sl: Option<real>, tp: Option<real>, inFlight: Option<DesiredAction>)

  datatype Event =
    | Look(tick: MarketTick, settings: ManagementSettings)
    | Miss(position: BrokerPosition, tick: MarketTick, settings: ManagementSettings)
    | Execute(stop: real)
    | Drop
    | Reply(confirmation: ActionConfirmation, settings: ManagementSettings)
    | PositionCloses
    | UserPauses
    | UserResumes
    | UserEdits(newSl: Option<real>, newTp: Option<real>)

  function Snapshot(sys: System): BrokerPosition {
    BrokerPosition(sys.machine.positionId, Some(sys.machine.side), sys.machine.entryPrice, sys.sl, sys.tp, true,
                   sys.present)
  }

  predicate Agrees(settings: ManagementSettings, terms: Terms) {
    settings.constraints == terms.constraints && settings.beOffset == terms.beOffset
  }

  predicate Enabled(sys: System, event: Event, terms: Terms) {
    match event
    case Look(tick, settings) => sys.inFlight.None? && tick.isFresh && Agrees(settings, terms)
    case Miss(position, tick, settings) => (!position.isFresh || !tick.isFresh) && Agrees(settings, terms)
    case Execute(stop) =>
      && sys.inFlight.Some? && sys.present && stop > 0.0
      && Rule(sys.inFlight.value, sys.sl, sys.tp, terms.constraints, terms.guarded).Send?
      && Abs(stop - NormalizePrice(sys.inFlight.value.targetSl, terms.constraints)) <= terms.slack
    case Drop => sys.inFlight.Some?
    case Reply(confirmation, settings) =>
      && Agrees(settings, terms)
      && (confirmation.positionExists == Some(false) ==> !sys.present)
      && (confirmation.status == Confirmed ==>
            confirmation.effectiveSl == sys.sl && confirmation.effectiveTp == sys.tp)
    case _ => true
  }

  /** The take-profit after a request has been executed: carried along rounded, or left as it was. */
  function PlacedTp(action: DesiredAction, currentTp: Option<real>, terms: Terms): Option<real> {
    if action.preserveTp.None? then currentTp else Some(RequestedTp(action, currentTp, terms.constraints))
  }

  function Step(sys: System, event: Event, terms: Terms): System {
    match event
    case Look(tick, settings) =>
      var decision := Evaluate(sys.machine, Snapshot(sys), tick, settings);
      sys.(machine := decision.state, inFlight := decision.action)
    case Miss(position, tick, settings) => sys.(machine := Evaluate(sys.machine, position, tick, settings).state)
    case Execute(stop) =>
      if sys.inFlight.Some? then
        sys.(sl := Some(stop), tp := PlacedTp(sys.inFlight.value, sys.tp, terms), inFlight := None)
      else sys
    case Drop => sys.(inFlight := None)
    case Reply(confirmation, settings) => sys.(machine := Next(sys.machine, Deliver(confirmation, settings)))
    case PositionCloses => sys.(present := false)
    case UserPauses => sys.(machine := Next(sys.machine, PauseNow))
    case UserResumes => sys.(machine := Next(sys.machine, ResumeNow))
    case UserEdits(newSl, newTp) => sys.(sl := newSl, tp := newTp)
  }

  /** `states` is what the system goes through while `events` happen one after the other. */
  predicate Trace(states: seq<System>, events: seq<Event>, terms: Terms) {
    && |states| == |events| + 1
    && forall i :: 0 <= i < |events| ==> Enabled(states[i], events[i], terms) && states[i + 1] == Step(states[i], events[i], terms)
  }

  /** A position just taken under management, with nothing sent yet. */
  predicate Started(sys: System) {
    && sys.machine.phase == WaitingBE && sys.machine.pendingAction.None? && sys.machine.resumePhase.None?
    && sys.machine.lastError.None? && sys.inFlight.None?
  }

  // ---------- the invariant ----------

  predicate StopReaches(side: Side, sl: Option<real>, level: real) {
    IsPositive(sl) && if side == Buy then sl.value >= level else sl.value <= level
  }

  function Loosen(side: Side, level: real, margin: real): real {
    if side == Buy then level - margin else level + margin
  }

  /** How much tighter than the break-even stop the gateway's rounding makes it; negative if looser. */
  function Drift(side: Side, entryPrice: real, terms: Terms): real {
    var stop := BreakevenStop(side, entryPrice, terms.beOffset, terms.constraints);
    var requested := NormalizePrice(stop, terms.constraints);
    if side == Buy then requested - stop else stop - requested
  }

  /**
   The machine can believe in break-even protection that it later finds missing.  The break-even stop is sendable
   and rounded away from break-even; the gateway and the broker can place it near enough for the machine to take
   it for the target, and yet more than the tolerance short of break-even.
   */
  predicate Demotable(side: Side, entryPrice: real, terms: Terms) {
    var c := terms.constraints;
    var gap, drift := BreakevenGap(side, entryPrice, terms.beOffset, c), Drift(side, entryPrice, terms);
    && Sendable(side, entryPrice, terms.beOffset, c) && gap > 0.0
    && drift + terms.slack >= -PriceTolerance(c)
    && gap + terms.slack - drift > PriceTolerance(c)
  }

  /** How far short of break-even the stop of a protected position may be. */
  function Margin(side: Side, entryPrice: real, terms: Terms): real {
    var c := terms.constraints;
    var tolerance := PriceTolerance(c);
    if !Distinguishable(c) then 2.0 * tolerance
    else if Demotable(side, entryPrice, terms) then
      var short := terms.slack - Drift(side, entryPrice, terms);
      BreakevenGap(side, entryPrice, terms.beOffset, c) + if short < tolerance then short else tolerance
    else tolerance
  }

  /** The broker's stop protects break-even up to `margin`. */
  predicate Protects(sys: System, terms: Terms, margin: real) {
    StopReaches(sys.machine.side, sys.sl,
                Loosen(sys.machine.side, RawBreakeven(sys.machine.side, sys.machine.entryPrice, terms.beOffset), margin))
  }

  predicate FloorHolds(sys: System, terms: Terms) {
    Protects(sys, terms, Margin(sys.machine.side, sys.machine.entryPrice, terms))
  }

  /** The machine believes break-even protection is in place, now or once it resumes. */
  predicate Armed(m: ManagedPosition) {
    IsProtectedPhase(m.phase) || (m.resumePhase.Some? && IsProtectedPhase(m.resumePhase.value))
  }

  /** A target the machine may have proposed: strictly beyond break-even, or the one break-even stop. */
  predicate GoodTarget(a: DesiredAction, sys: System, terms: Terms) {
    var entryPrice, c := sys.machine.entryPrice, terms.constraints;
    && a.side == sys.machine.side && a.targetSl > 0.0
    && BeyondBreakeven(a.side, a.targetSl, entryPrice, terms.beOffset, PriceTolerance(c))
    && (Distinguishable(c) ==>
          || StrictlyBeyondBreakeven(a.side, a.targetSl, entryPrice, terms.beOffset)
          || (Sendable(a.side, entryPrice, terms.beOffset, c)
              && a.targetSl == BreakevenStop(a.side, entryPrice, terms.beOffset, c)))
  }

  predicate NotYetExecuted(a: DesiredAction, sys: System, terms: Terms) {
    TighterBy(a.side, a.targetSl, sys.sl, PriceTolerance(terms.constraints))
  }

  predicate Executed(a: DesiredAction, sys: System, terms: Terms) {
    sys.sl.Some? && Abs(sys.sl.value - NormalizePrice(a.targetSl, terms.constraints)) <= terms.slack
  }

  predicate RequestsTracked(sys: System, terms: Terms) {
    && (sys.inFlight.Some? ==>
          && GoodTarget(sys.inFlight.value, sys, terms) && NotYetExecuted(sys.inFlight.value, sys, terms)
          && sys.inFlight.value.expectedBrokerSl == sys.sl
          && (sys.machine.pendingAction.Some? ==> sys.machine.pendingAction == sys.inFlight))
    && (sys.machine.pendingAction.Some? ==>
          && GoodTarget(sys.machine.pendingAction.value, sys, terms)
          && (NotYetExecuted(sys.machine.pendingAction.value, sys, terms)
              || Executed(sys.machine.pendingAction.value, sys, terms)))
  }

  predicate SystemInvariant(sys: System, terms: Terms) {
    && Consistent(sys.machine)
    && RequestsTracked(sys, terms)
    && (Armed(sys.machine) ==> FloorHolds(sys, terms))
    && (Distinguishable(terms.constraints) && !Demotable(sys.machine.side, sys.machine.entryPrice, terms) ==>
          sys.machine.lastError != Some(BrokerSlBelowBreakeven))
  }

  /** The second stop protects at least as much as the first. */
  predicate NoLooser(side: Side, before: Option<real>, after: Option<real>) {
    IsPositive(before) ==> StopReaches(side, after, before.value)
  }

  // ---------- what an evaluation does to the machine's beliefs ----------

  predicate BeliefOutcome(w: ManagedPosition, position: BrokerPosition, settings: ManagementSettings, d: Decision) {
    && (d.state.pendingAction.Some? ==> d.state.pendingAction == d.action || d.state.pendingAction == w.pendingAction)
    && (Armed(d.state) ==>
          || Armed(w) || AtBreakeven(w, position.brokerSl, settings)
          || (w.pendingAction.Some? && ActionIsReflected(w.pendingAction.value, position, settings.constraints)))
    && (d.state.lastError == Some(BrokerSlBelowBreakeven) ==>
          w.lastError == Some(BrokerSlBelowBreakeven) || (Armed(w) && !AtBreakeven(w, position.brokerSl, settings)))
  }

  lemma ActiveBelief(w: ManagedPosition, position: BrokerPosition, closePrice: real, settings: ManagementSettings)
    requires Consistent(w)
    ensures BeliefOutcome(w, position, settings, EvaluateActive(w, position, closePrice, settings))
  {
  }

  lemma ResumedBelief(w: ManagedPosition, position: BrokerPosition, tick: MarketTick, settings: ManagementSettings)
    requires Consistent(w)
    ensures BeliefOutcome(w, position, settings, EvaluateResumed(w, position, tick, settings))
  {
    ActiveBelief(w, position, tick.ClosingPrice(w.side), settings);
    if w.phase == ErrorRetryable {
      ActiveBelief(LeaveBackoff(w), position, tick.ClosingPrice(w.side), settings);
    }
  }

  lemma EvaluateBelief(s: ManagedPosition, position: BrokerPosition, tick: MarketTick, settings: ManagementSettings)
    requires Consistent(s)
    ensures BeliefOutcome(s, position, settings, Evaluate(s, position, tick, settings))
  {
    if Acts(s, position, tick, settings) {
      if s.phase != Stale {
        ResumedBelief(s, position, tick, settings);
      } else {
        ResumedBelief(Unstale(s), position, tick, settings);
      }
    }
  }

  // ---------- one step ----------

  lemma MarginIsAtLeastTolerance(side: Side, entryPrice: real, terms: Terms)
    ensures Margin(side, entryPrice, terms) >= PriceTolerance(terms.constraints)
  {
    hide PriceTolerance, BreakevenGap, BreakevenStop, Drift, Sendable, Distinguishable;
  }

  lemma MarginIsEnough(sys: System, terms: Terms)
    ensures Protects(sys, terms, PriceTolerance(terms.constraints)) ==> FloorHolds(sys, terms)
  {
    hide Margin, PriceTolerance;
    MarginIsAtLeastTolerance(sys.machine.side, sys.machine.entryPrice, terms);
  }

  /** Once the broker is seen to protect a pending target, break-even is protected up to the margin. */
  lemma ReflectedHoldsFloor(a: DesiredAction, sys: System, terms: Terms)
    requires GoodTarget(a, sys, terms) && (NotYetExecuted(a, sys, terms) || Executed(a, sys, terms))
    requires IsAtLeastAsProtective(sys.sl, a.targetSl, a.side, PriceTolerance(terms.constraints))
    ensures FloorHolds(sys, terms)
  {
    assert Executed(a, sys, terms);
    MarginIsAtLeastTolerance(sys.machine.side, sys.machine.entryPrice, terms);
    var c, m := terms.constraints, sys.machine;
    BreakevenStopIsShort(m.side, m.entryPrice, terms.beOffset, c);
    hide NormalizePrice, PriceTolerance, Sendable, BreakevenStop, BreakevenGap, Distinguishable;
  }

  /** A freshly proposed action is a good one. */
  lemma ProposedTargetIsGood(sys: System, tick: MarketTick, settings: ManagementSettings, terms: Terms)
    requires Agrees(settings, terms) && Evaluate(sys.machine, Snapshot(sys), tick, settings).action.Some?
    ensures var a := Evaluate(sys.machine, Snapshot(sys), tick, settings).action.value;
            && GoodTarget(a, sys, terms) && NotYetExecuted(a, sys, terms) && a.expectedBrokerSl == sys.sl
  {
    var position := Snapshot(sys);
    EmittedActionIsSafe(sys.machine, position, tick, settings);
    if Distinguishable(terms.constraints) {
      EmittedTargetIsBeyondOrBreakeven(sys.machine, position, tick, settings);
    }
    hide Evaluate, PriceTolerance, DigitQuantum, Sendable, BreakevenStop, Distinguishable;
  }

  lemma LookStep(sys: System, tick: MarketTick, settings: ManagementSettings, terms: Terms)
    requires SystemInvariant(sys, terms) && Enabled(sys, Look(tick, settings), terms)
    ensures SystemInvariant(Step(sys, Look(tick, settings), terms), terms)
  {
    hide Evaluate, PriceTolerance, GoodTarget, Margin, Demotable, Rule, Executed, NotYetExecuted, Distinguishable, Consistent,
      ActionIsReflected;
    var position := Snapshot(sys);
    var decision := Evaluate(sys.machine, position, tick, settings);
    var after := Step(sys, Look(tick, settings), terms);
    EvaluateStep(sys.machine, position, tick, settings);
    EvaluateBelief(sys.machine, position, tick, settings);
    if decision.action.Some? {
      ProposedTargetIsGood(sys, tick, settings, terms);
      EmissionNeedsNoPending(sys.machine, Observe(position, tick, settings));
      GoodTargetTravels(decision.action.value, sys, after, terms);
    }
    if sys.machine.pendingAction.Some? {
      GoodTargetTravels(sys.machine.pendingAction.value, sys, after, terms);
    }
    LookKeepsFloor(sys, tick, settings, terms);
  }

  /** Whether a target is good depends only on the position. */
  lemma GoodTargetTravels(a: DesiredAction, sys: System, other: System, terms: Terms)
    requires SamePosition(sys.machine, other.machine)
    ensures GoodTarget(a, sys, terms) == GoodTarget(a, other, terms)
    ensures sys.sl == other.sl ==> NotYetExecuted(a, sys, terms) == NotYetExecuted(a, other, terms)
                                   && Executed(a, sys, terms) == Executed(a, other, terms)
                                   && FloorHolds(sys, terms) == FloorHolds(other, terms)
  {
    hide PriceTolerance, Margin, NormalizePrice, Sendable, BreakevenStop;
  }

  lemma AtBreakevenHoldsFloor(sys: System, settings: ManagementSettings, terms: Terms)
    requires Agrees(settings, terms)
    ensures AtBreakeven(sys.machine, sys.sl, settings) ==> FloorHolds(sys, terms)
    ensures FloorHolds(sys, terms) && Distinguishable(terms.constraints)
            && !Demotable(sys.machine.side, sys.machine.entryPrice, terms)
            ==> AtBreakeven(sys.machine, sys.sl, settings)
  {
    MarginIsEnough(sys, terms);
    hide PriceTolerance, Demotable;
  }

  /** A look arms the machine only over a floor, and demotes it only where the floor is not enough. */
  lemma LookKeepsFloor(sys: System, tick: MarketTick, settings: ManagementSettings, terms: Terms)
    requires SystemInvariant(sys, terms) && Enabled(sys, Look(tick, settings), terms)
    ensures var after := Step(sys, Look(tick, settings), terms);
            && (Armed(after.machine) ==> FloorHolds(sys, terms))
            && (Distinguishable(terms.constraints) && !Demotable(sys.machine.side, sys.machine.entryPrice, terms) ==>
                  after.machine.lastError != Some(BrokerSlBelowBreakeven))
  {
    hide Evaluate, PriceTolerance, GoodTarget, Margin, Demotable, Rule, Executed, NotYetExecuted, FloorHolds, Consistent,
      AtBreakeven, SameOptionalPrice, Distinguishable;
    var position := Snapshot(sys);
    EvaluateBelief(sys.machine, position, tick, settings);
    AtBreakevenHoldsFloor(sys, settings, terms);
    if sys.machine.pendingAction.Some? && ActionIsReflected(sys.machine.pendingAction.value, position, settings.constraints) {
      ReflectedHoldsFloor(sys.machine.pendingAction.value, sys, terms);
    }
  }

  lemma MissedObservation(m: ManagedPosition, position: BrokerPosition, tick: MarketTick, settings: ManagementSettings)
    requires Consistent(m) && (!position.isFresh || !tick.isFresh)
    ensures var t := Evaluate(m, position, tick, settings).state;
            && t.pendingAction == m.pendingAction && (Armed(t) ==> Armed(m)) && Consistent(t) && SamePosition(m, t)
            && (t.lastError == Some(BrokerSlBelowBreakeven) ==> t.lastError == m.lastError)
  {
  }

  lemma MissStep(sys: System, position: BrokerPosition, tick: MarketTick, settings: ManagementSettings, terms: Terms)
    requires SystemInvariant(sys, terms) && Enabled(sys, Miss(position, tick, settings), terms)
    ensures SystemInvariant(Step(sys, Miss(position, tick, settings), terms), terms)
  {
    hide Evaluate, PriceTolerance, GoodTarget, Margin, Demotable, Executed, NotYetExecuted, FloorHolds, Consistent,
      Distinguishable;
    var after := Step(sys, Miss(position, tick, settings), terms);
    MissedObservation(sys.machine, position, tick, settings);
    if sys.machine.pendingAction.Some? {
      GoodTargetTravels(sys.machine.pendingAction.value, sys, after, terms);
    }
    if sys.inFlight.Some? {
      GoodTargetTravels(sys.inFlight.value, sys, after, terms);
    }
    FloorTravels(sys, after, terms);
  }

  /** CONFIRMED is believed only when the broker did execute the request. */
  lemma ConfirmationMeansExecuted(sys: System, confirmation: ActionConfirmation, settings: ManagementSettings, terms: Terms)
    requires SystemInvariant(sys, terms) && Enabled(sys, Reply(confirmation, settings), terms)
    requires sys.machine.pendingAction.Some? && confirmation.status == Confirmed
    requires ConfirmationSlOk(sys.machine.pendingAction.value, confirmation, settings.constraints)
    ensures Executed(sys.machine.pendingAction.value, sys, terms)
  {
    hide PriceTolerance, Executed, Consistent, Margin, Demotable, FloorHolds, Sendable;
  }

  /** A reply forgets, keeps or fulfils the pending action; only fulfilling it can arm the machine. */
  lemma ReplyOutcome(m: ManagedPosition, confirmation: ActionConfirmation, settings: ManagementSettings)
    requires Consistent(m)
    ensures var t := Next(m, Deliver(confirmation, settings));
            && (t.pendingAction.Some? ==> t.pendingAction == m.pendingAction)
            && (Armed(t) ==>
                  || Armed(m)
                  || (m.pendingAction.Some? && confirmation.status == Confirmed
                      && ConfirmationSlOk(m.pendingAction.value, confirmation, settings.constraints)))
            && (t.lastError == Some(BrokerSlBelowBreakeven) ==> t.lastError == m.lastError)
  {
    hide ConfirmationSlOk, ConfirmationTpOk, RetryDelay;
  }

  lemma ReplyStep(sys: System, confirmation: ActionConfirmation, settings: ManagementSettings, terms: Terms)
    requires SystemInvariant(sys, terms) && Enabled(sys, Reply(confirmation, settings), terms)
    ensures SystemInvariant(Step(sys, Reply(confirmation, settings), terms), terms)
  {
    hide Next, PriceTolerance, GoodTarget, Margin, Demotable, Executed, NotYetExecuted, FloorHolds, Consistent, Distinguishable;
    var after := Step(sys, Reply(confirmation, settings), terms);
    NextStep(sys.machine, Deliver(confirmation, settings));
    ReplyOutcome(sys.machine, confirmation, settings);
    if sys.machine.pendingAction.Some? {
      var a := sys.machine.pendingAction.value;
      GoodTargetTravels(a, sys, after, terms);
      if confirmation.status == Confirmed && ConfirmationSlOk(a, confirmation, settings.constraints) {
        ReflectedHoldsFloor(a, sys, terms);
      }
    }
    if sys.inFlight.Some? {
      GoodTargetTravels(sys.inFlight.value, sys, after, terms);
    }
    FloorTravels(sys, after, terms);
  }

  lemma FloorTravels(sys: System, other: System, terms: Terms)
    requires SamePosition(sys.machine, other.machine) && NoLooser(sys.machine.side, sys.sl, other.sl)
    ensures FloorHolds(sys, terms) ==> FloorHolds(other, terms)
  {
    hide Margin;
  }

  /** Executing what the gateway sends never loosens the stop the machine saw. */
  lemma ExecutionTightens(sys: System, stop: real, terms: Terms)
    requires SystemInvariant(sys, terms) && Enabled(sys, Execute(stop), terms) && terms.guarded
    ensures NoLooser(sys.machine.side, sys.sl, Some(stop))
  {
    var a := sys.inFlight.value;
    var tolerance := PriceTolerance(terms.constraints);
    hide PriceTolerance, Rule, NormalizePrice, Sendable, Margin, Demotable, Consistent, FloorHolds;
    SentRequestLoosensIff(a, sys.sl, sys.tp, terms.constraints, stop, terms.slack);
  }

  lemma ExecuteStep(sys: System, stop: real, terms: Terms)
    requires SystemInvariant(sys, terms) && Enabled(sys, Execute(stop), terms) && terms.guarded
    ensures SystemInvariant(Step(sys, Execute(stop), terms), terms)
  {
    hide PriceTolerance, GoodTarget, Margin, Demotable, Rule, NormalizePrice, FloorHolds, Consistent, Distinguishable;
    var after := Step(sys, Execute(stop), terms);
    ExecutionTightens(sys, stop, terms);
    FloorTravels(sys, after, terms);
    if sys.machine.pendingAction.Some? {
      GoodTargetTravels(sys.machine.pendingAction.value, sys, after, terms);
    }
  }

  lemma QuietStep(sys: System, event: Event, terms: Terms)
    requires SystemInvariant(sys, terms)
    requires event.Drop? || event.PositionCloses? || event.UserPauses? || event.UserResumes?
    ensures SystemInvariant(Step(sys, event, terms), terms)
  {
    hide PriceTolerance, GoodTarget, Margin, Demotable, Executed, NotYetExecuted, FloorHolds, Distinguishable;
    var after := Step(sys, event, terms);
    if sys.machine.pendingAction.Some? {
      GoodTargetTravels(sys.machine.pendingAction.value, sys, after, terms);
    }
    if sys.inFlight.Some? {
      GoodTargetTravels(sys.inFlight.value, sys, after, terms);
    }
    FloorTravels(sys, after, terms);
  }

  lemma StepKeepsPosition(sys: System, event: Event, terms: Terms)
    requires Consistent(sys.machine)
    ensures SamePosition(sys.machine, Step(sys, event, terms).machine)
  {
    match event
    case Look(tick, settings) =>
      hide Evaluate;
      EvaluateStep(sys.machine, Snapshot(sys), tick, settings);
    case Miss(position, tick, settings) =>
      hide Evaluate;
      EvaluateStep(sys.machine, position, tick, settings);
    case Reply(confirmation, settings) =>
      hide Next;
      NextStep(sys.machine, Deliver(confirmation, settings));
    case _ =>
  }

  lemma StepNeverLoosens(sys: System, event: Event, terms: Terms)
    requires SystemInvariant(sys, terms) && Enabled(sys, event, terms) && terms.guarded && !event.UserEdits?
    ensures NoLooser(sys.machine.side, sys.sl, Step(sys, event, terms).sl)
  {
    hide Evaluate, Next, SystemInvariant, Rule;
    if event.Execute? {
      ExecutionTightens(sys, event.stop, terms);
    }
  }

  lemma SystemStep(sys: System, event: Event, terms: Terms)
    requires SystemInvariant(sys, terms) && Enabled(sys, event, terms) && terms.guarded && !event.UserEdits?
    ensures SystemInvariant(Step(sys, event, terms), terms)
    ensures NoLooser(sys.machine.side, sys.sl, Step(sys, event, terms).sl)
    ensures SamePosition(sys.machine, Step(sys, event, terms).machine)
  {
    StepKeepsPosition(sys, event, terms);
    StepNeverLoosens(sys, event, terms);
    hide Step, SystemInvariant, Enabled;
    match event
    case Look(tick, settings) => LookStep(sys, tick, settings, terms);
    case Miss(position, tick, settings) => MissStep(sys, position, tick, settings, terms);
    case Execute(stop) => ExecuteStep(sys, stop, terms);
    case Reply(confirmation, settings) => ReplyStep(sys, confirmation, settings, terms);
    case _ => QuietStep(sys, event, terms);
  }

  // ---------- whole runs without hand edits ----------

  /** A run of the machine against a guarded broker in which nobody moves the stop by hand. */
  ghost predicate HandsOff(states: seq<System>, events: seq<Event>, terms: Terms) {
    && terms.guarded && Trace(states, events, terms) && Started(states[0])
    && forall k :: 0 <= k < |events| ==> !events[k].UserEdits?
  }

  lemma {:induction false} EveryStateKeepsInvariant(states: seq<System>, events: seq<Event>, terms: Terms, i: nat)
    requires HandsOff(states, events, terms) && i < |states|
    ensures SystemInvariant(states[i], terms) && SamePosition(states[0].machine, states[i].machine)
  {
    if i == 0 {
      StartKeepsInvariant(states[0], terms);
    } else {
      hide Step, SystemInvariant, Enabled, Started;
      EveryStateKeepsInvariant(states, events, terms, i - 1);
      SystemStep(states[i - 1], events[i - 1], terms);
    }
  }

  lemma StartKeepsInvariant(sys: System, terms: Terms)
    requires Started(sys)
    ensures SystemInvariant(sys, terms)
  {
  }

  /** Whatever is lost, delayed, rejected or stale, the broker's stop only ever moves in the protective direction. */
  lemma {:induction false} StopOnlyTightens(states: seq<System>, events: seq<Event>, terms: Terms, i: nat, j: nat)
    requires HandsOff(states, events, terms) && i <= j < |states|
    ensures NoLooser(states[0].machine.side, states[i].sl, states[j].sl)
    decreases j - i
  {
    if i < j {
      OneMoreStep(states, events, terms, j - 1);
      hide *;
      StopOnlyTightens(states, events, terms, i, j - 1);
      NoLooserChains(states[0].machine.side, states[i].sl, states[j - 1].sl, states[j].sl);
    }
  }

  lemma OneMoreStep(states: seq<System>, events: seq<Event>, terms: Terms, j: nat)
    requires HandsOff(states, events, terms) && j < |events|
    ensures NoLooser(states[0].machine.side, states[j].sl, states[j + 1].sl)
  {
    hide Step, SystemInvariant, Enabled, Started, NoLooser;
    EveryStateKeepsInvariant(states, events, terms, j);
    SystemStep(states[j], events[j], terms);
  }

  lemma NoLooserChains(side: Side, a: Option<real>, b: Option<real>, c: Option<real>)
    requires NoLooser(side, a, b) && NoLooser(side, b, c)
    ensures NoLooser(side, a, c)
  {
  }

  /** Once BE_ACTIVE has been reached, the stop protects break-even up to the margin for the rest of the run. */
  lemma BreakevenIsNeverLost(states: seq<System>, events: seq<Event>, terms: Terms, i: nat, j: nat)
    requires HandsOff(states, events, terms) && i <= j < |states|
    requires IsProtectedPhase(states[i].machine.phase)
    ensures FloorHolds(states[j], terms)
  {
    hide HandsOff, FloorHolds, RequestsTracked, Consistent, NoLooser, Demotable, Distinguishable;
    EveryStateKeepsInvariant(states, events, terms, i);
    EveryStateKeepsInvariant(states, events, terms, j);
    StopOnlyTightens(states, events, terms, i, j);
    FloorTravels(states[i], states[j], terms);
  }

  /** Unless the terms and the position allow it, the "stop below break-even" demotion never happens. */
  lemma DemotionNeverFires(states: seq<System>, events: seq<Event>, terms: Terms, i: nat)
    requires HandsOff(states, events, terms) && i < |states|
    requires Distinguishable(terms.constraints)
    requires !Demotable(states[0].machine.side, states[0].machine.entryPrice, terms)
    ensures states[i].machine.lastError != Some(BrokerSlBelowBreakeven)
    ensures i < |events| && events[i].Look? && IsProtectedPhase(states[i].machine.phase) ==>
              AtBreakeven(states[i].machine, states[i].sl, events[i].settings)
  {
    EveryStateKeepsInvariant(states, events, terms, i);
    hide Demotable, Distinguishable, FloorHolds, RequestsTracked, Consistent, Step, AtBreakeven;
    if i < |events| && events[i].Look? {
      assert Enabled(states[i], events[i], terms);
      AtBreakevenHoldsFloor(states[i], events[i].settings, terms);
    }
  }

  /** A break-even price that the broker can quote leaves nothing to demote, whatever the slack. */
  lemma QuotableBreakevenIsSafe(side: Side, entryPrice: real, terms: Terms)
    requires Distinguishable(terms.constraints)
    requires Grid.OnGrid(RawBreakeven(side, entryPrice, terms.beOffset), DigitQuantum(terms.constraints))
    ensures !Demotable(side, entryPrice, terms)
    ensures Margin(side, entryPrice, terms) == PriceTolerance(terms.constraints)
  {
    var c := terms.constraints;
    var rawBe, stop := RawBreakeven(side, entryPrice, terms.beOffset), BreakevenStop(side, entryPrice, terms.beOffset, c);
    RoundStopIsOnQuantum(rawBe, side, c.tickSize, DigitQuantum(c));
    hide PriceTolerance, DigitQuantum, RoundStop, Grid.OnGrid, Drift;
    if BreakevenGap(side, entryPrice, terms.beOffset, c) <= PriceTolerance(c) {
      assert PriceTolerance(c) > 0.0;
      CloseGridPricesAreEqual(rawBe, stop, c);
    }
  }

  // ---------- stops moved by hand ----------

  /** What survives hand edits: a request still improves on the stop it was computed from. */
  predicate GuardedInvariant(sys: System, terms: Terms) {
    && Consistent(sys.machine)
    && (sys.inFlight.Some? ==>
          sys.inFlight.value.side == sys.machine.side && sys.inFlight.value.targetSl > 0.0 && Improves(sys.inFlight.value))
  }

  /** The one stop a guarded request may loosen: a SELL stop next to price zero, set since the machine looked. */
  predicate Overlooked(sys: System, terms: Terms) {
    sys.inFlight.Some? && OverlooksStop(sys.inFlight.value, sys.sl, terms.constraints)
  }

  lemma GuardedKeeps(sys: System, event: Event, terms: Terms)
    requires GuardedInvariant(sys, terms) && Enabled(sys, event, terms)
    ensures GuardedInvariant(Step(sys, event, terms), terms)
    ensures SamePosition(sys.machine, Step(sys, event, terms).machine)
  {
    match event
    case Look(tick, settings) =>
      hide Evaluate, PriceTolerance;
      EvaluateStep(sys.machine, Snapshot(sys), tick, settings);
      if Evaluate(sys.machine, Snapshot(sys), tick, settings).action.Some? {
        EmittedActionIsSafe(sys.machine, Snapshot(sys), tick, settings);
      }
    case Miss(position, tick, settings) =>
      hide Evaluate;
      EvaluateStep(sys.machine, position, tick, settings);
    case Reply(confirmation, settings) =>
      hide Next;
      NextStep(sys.machine, Deliver(confirmation, settings));
    case _ =>
  }

  /** A guarded step other than a hand edit loosens the stop if and only if it executes a request over an overlooked one. */
  lemma GuardedStep(sys: System, event: Event, terms: Terms)
    requires GuardedInvariant(sys, terms) && Enabled(sys, event, terms) && terms.guarded && !event.UserEdits?
    ensures NoLooser(sys.machine.side, sys.sl, Step(sys, event, terms).sl) <==> !(event.Execute? && Overlooked(sys, terms))
  {
    hide Evaluate, Next, Consistent, Rule, NormalizePrice, MatchTolerance;
    if event.Execute? {
      SentRequestLoosensIff(sys.inFlight.value, sys.sl, sys.tp, terms.constraints, event.stop, terms.slack);
    }
  }

  /**
   With guarded requests, even in runs full of hand edits only the user loosens the stop, save where a request is
   executed over a stop that was set by hand within half a step of price zero.
   */
  lemma {:induction false} OnlyTheUserLoosens(states: seq<System>, events: seq<Event>, terms: Terms, i: nat)
    requires Trace(states, events, terms) && Started(states[0]) && i < |events| && terms.guarded
    ensures GuardedInvariant(states[i], terms)
    ensures !events[i].UserEdits? ==>
              (NoLooser(states[i].machine.side, states[i].sl, states[i + 1].sl)
               <==> !(events[i].Execute? && Overlooked(states[i], terms)))
  {
    hide Step, GuardedInvariant, Enabled, Overlooked, NoLooser;
    if i == 0 {
      StartIsGuarded(states[0], terms);
    } else {
      OnlyTheUserLoosens(states, events, terms, i - 1);
      GuardedKeeps(states[i - 1], events[i - 1], terms);
    }
    if !events[i].UserEdits? {
      GuardedStep(states[i], events[i], terms);
    }
  }

  lemma StartIsGuarded(sys: System, terms: Terms)
    requires Started(sys)
    ensures GuardedInvariant(sys, terms)
  {
  }
}
