/**
 What holds in every state the order machine can reach, whatever observations, execution results, pauses
 and resumes it is fed, in any order.
 */
module OrderInvariant {
  import opened Common
  import opened OrderManagement
  import opened OrderActionSafety

  datatype Input =
    | Observe(position: BrokerPosition, tick: MarketTick, settings: ManagementSettings)
    | Deliver(confirmation: ActionConfirmation, settings: ManagementSettings)
    | PauseNow
    | ResumeNow

  /** One operation of the machine; one that raises leaves the state as it was. */
  function Next(s: ManagedPosition, input: Input): ManagedPosition {
    match input
    case Observe(position, tick, settings) => Evaluate(s, position, tick, settings).state
    case Deliver(confirmation, settings) =>
      var result := ApplyConfirmation(s, confirmation, settings);
      if result.Ok? then result.value else s
    case PauseNow => var result := Pause(s); if result.Ok? then result.value else s
    case ResumeNow => Resume(s)
  }

  function Emitted(s: ManagedPosition, input: Input): Option<DesiredAction> {
    match input
    case Observe(position, tick, settings) => Evaluate(s, position, tick, settings).action
    case _ => None
  }

  function Run(s: ManagedPosition, inputs: seq<Input>): ManagedPosition
    decreases |inputs|
  {
    if inputs == [] then s else Run(Next(s, inputs[0]), inputs[1..])
  }

  /** How many actions a run proposes. */
  function Emissions(s: ManagedPosition, inputs: seq<Input>): nat
    decreases |inputs|
  {
    if inputs == [] then 0
    else (if Emitted(s, inputs[0]).Some? then 1 else 0) + Emissions(Next(s, inputs[0]), inputs[1..])
  }

  lemma RunStep(m: ManagedPosition, first: Input, rest: seq<Input>)
    ensures Run(m, [first] + rest) == Run(Next(m, first), rest)
    ensures Run(m, []) == m
  {
    hide Next;
    assert ([first] + rest)[1..] == rest;
  }

  lemma ThreeInputs(m: ManagedPosition, a: Input, b: Input, c: Input, rest: seq<Input>)
    ensures Run(m, [a, b, c] + rest) == Run(Next(Next(Next(m, a), b), c), rest)
  {
    hide Next, Run;
    RunStep(m, a, [b, c] + rest);
    RunStep(Next(m, a), b, [c] + rest);
    RunStep(Next(Next(m, a), b), c, rest);
    assert [a, b, c] + rest == [a] + ([b, c] + rest);
    assert [b, c] + rest == [b] + ([c] + rest);
  }

  predicate IsSource(phase: Phase) {
    phase == WaitingBE || phase == TrailWide || phase == TrailTight
  }

  /** A pending action belongs to this position and to the phase it was proposed in. */
  predicate PendingFits(s: ManagedPosition) {
    s.pendingAction.Some? ==>
      var a := s.pendingAction.value;
      && a.side == s.side && a.positionId == s.positionId
      && ReasonMatchesSource(a.reason, a.sourcePhase)
      && (s.phase == a.sourcePhase || (s.phase == Stale && s.resumePhase == Some(a.sourcePhase)))
  }

  predicate ResumeFits(s: ManagedPosition) {
    && (s.resumePhase.Some? ==> s.resumePhase.value != Closed && s.resumePhase.value != Unmanaged)
    && (s.phase == Stale ==> s.resumePhase != Some(Stale))
    && (s.phase == ErrorRetryable && s.resumePhase.Some? ==> IsSource(s.resumePhase.value))
  }

  predicate Consistent(s: ManagedPosition) {
    s.phase != Unmanaged && PendingFits(s) && ResumeFits(s)
  }

  /** The best price seen never moves back. */
  predicate ExtremeAdvances(s: ManagedPosition, t: ManagedPosition) {
    IsPositive(s.extremePrice) ==>
      && IsPositive(t.extremePrice)
      && if s.side == Buy then t.extremePrice.value >= s.extremePrice.value
         else t.extremePrice.value <= s.extremePrice.value
  }

  predicate SamePosition(s: ManagedPosition, t: ManagedPosition) {
    s.positionId == t.positionId && s.side == t.side && s.entryPrice == t.entryPrice && s.initialSl == t.initialSl
  }

  lemma StartIsConsistent(positionId: int, side: Side, entryPrice: real, initialSl: real)
    requires StartManagement(positionId, side, entryPrice, initialSl).Ok?
    ensures Consistent(StartManagement(positionId, side, entryPrice, initialSl).value)
  {
  }

  /** What any later stage of an evaluation may do to the state it was handed. */
  predicate StageOutcome(w: ManagedPosition, d: Decision) {
    && Consistent(d.state) && SamePosition(w, d.state) && ExtremeAdvances(w, d.state)
    && d.state.phase != Closed && d.reason != PhaseUnsupported
    && (w.phase == TrailTight ==> d.state.phase != TrailWide)
    && (d.action.Some? ==>
          && w.pendingAction.None? && d.state.pendingAction == d.action
          && d.state.phase == d.action.value.sourcePhase)
  }

  lemma WaitingOutcome(w: ManagedPosition, position: BrokerPosition, closePrice: real, settings: ManagementSettings)
    requires Consistent(w) && w.phase == WaitingBE && w.pendingAction.None? && closePrice > 0.0
    ensures StageOutcome(w, EvaluateWaitingBE(w, position, closePrice, settings))
  {
    hide RoundStop, RThresholdReached, ProfitR, PriceTolerance, DigitQuantum, ClampedTarget, NormalizeStopTarget,
         IsStrictlyMoreProtective, IsAtLeastAsProtective;
  }

  lemma TrailingOutcome(w: ManagedPosition, position: BrokerPosition, closePrice: real, settings: ManagementSettings)
    requires Consistent(w) && (w.phase == TrailWide || w.phase == TrailTight) && w.pendingAction.None? && closePrice > 0.0
    ensures StageOutcome(w, EvaluateTrailing(w, position, closePrice, settings))
  {
    hide RoundStop, RThresholdReached, ProfitR, PriceTolerance, DigitQuantum, ClampedTarget, NormalizeStopTarget,
         IsStrictlyMoreProtective, IsAtLeastAsProtective;
  }

  lemma ActiveOutcome(w: ManagedPosition, position: BrokerPosition, closePrice: real, settings: ManagementSettings)
    requires Consistent(w) && closePrice > 0.0
    requires w.phase == WaitingBE || IsProtectedPhase(w.phase)
    ensures StageOutcome(w, EvaluateActive(w, position, closePrice, settings))
  {
    hide RoundStop, RThresholdReached, ProfitR, PriceTolerance, DigitQuantum, ClampedTarget, NormalizeStopTarget,
         IsStrictlyMoreProtective, IsAtLeastAsProtective;
    if w.pendingAction.None? {
      var gated := ReenterBreakevenGate(w, position, settings);
      match gated.phase
      case WaitingBE => WaitingOutcome(gated, position, closePrice, settings);
      case BEActive =>
      case _ => TrailingOutcome(gated, position, closePrice, settings);
    }
  }

  lemma ResumedOutcome(w: ManagedPosition, position: BrokerPosition, tick: MarketTick, settings: ManagementSettings)
    requires Consistent(w) && tick.ClosingPrice(w.side) > 0.0 && w.phase != Stale && w.phase != Closed
    ensures StageOutcome(w, EvaluateResumed(w, position, tick, settings))
  {
    hide RoundStop, RThresholdReached, ProfitR, PriceTolerance, DigitQuantum, ClampedTarget, NormalizeStopTarget,
         IsStrictlyMoreProtective, IsAtLeastAsProtective;
    var active := if w.phase == ErrorRetryable then LeaveBackoff(w) else w;
    if active.phase == WaitingBE || IsProtectedPhase(active.phase) {
      ActiveOutcome(active, position, tick.ClosingPrice(w.side), settings);
    }
  }

  lemma FreshOutcome(s: ManagedPosition, position: BrokerPosition, tick: MarketTick, settings: ManagementSettings)
    requires Consistent(s) && tick.ClosingPrice(s.side) > 0.0 && s.phase != Closed
    ensures var d := EvaluateFresh(s, position, tick, settings);
            if s.phase == Stale && s.pendingAction.Some?
               && !ActionIsReflected(s.pendingAction.value, position, settings.constraints)
            then StageOutcome(s.(pendingAction := None), d) else StageOutcome(s, d)
  {
    hide RoundStop, RThresholdReached, ProfitR, PriceTolerance, DigitQuantum, ClampedTarget, NormalizeStopTarget,
         IsStrictlyMoreProtective, IsAtLeastAsProtective;
    if s.phase == Stale {
      if s.pendingAction.None? || !ActionIsReflected(s.pendingAction.value, position, settings.constraints) {
        ResumedOutcome(Unstale(s), position, tick, settings);
      }
    } else {
      ResumedOutcome(s, position, tick, settings);
    }
  }

  /** The observation reaches the stages that act on it: it is fresh, matching, present and priced. */
  predicate Acts(s: ManagedPosition, position: BrokerPosition, tick: MarketTick, settings: ManagementSettings) {
    && s.phase != Unmanaged && s.phase != Closed && s.phase != Paused && s.phase != ErrorNonRetryable
    && position.isFresh && tick.isFresh && position.present
    && IdentityError(s, position, settings.constraints).None?
    && tick.ClosingPrice(s.side) > 0.0
  }

  lemma EvaluateSplits(s: ManagedPosition, position: BrokerPosition, tick: MarketTick, settings: ManagementSettings)
    ensures var d := Evaluate(s, position, tick, settings);
            if Acts(s, position, tick, settings) then d == EvaluateFresh(s, position, tick, settings)
            else
              && d.action.None? && d.reason != PhaseUnsupported && SamePosition(s, d.state)
              && d.state.extremePrice == s.extremePrice
              && (d.state.phase == Closed ==>
                    s.phase == Closed || (position.isFresh && tick.isFresh && !position.present
                                          && position.positionId == s.positionId))
              && (s.phase == Closed ==> d.state == s)
              && (Consistent(s) ==> Consistent(d.state))
              && (s.phase == TrailTight ==> d.state.phase != TrailWide)
  {
    hide RoundStop, RThresholdReached, ProfitR, PriceTolerance, DigitQuantum, ClampedTarget, NormalizeStopTarget,
         IsStrictlyMoreProtective, IsAtLeastAsProtective;
  }

  lemma EvaluateStep(s: ManagedPosition, position: BrokerPosition, tick: MarketTick, settings: ManagementSettings)
    requires Consistent(s)
    ensures var t := Evaluate(s, position, tick, settings).state;
            Consistent(t) && SamePosition(s, t) && ExtremeAdvances(s, t)
  {
    EvaluateSplits(s, position, tick, settings);
    if Acts(s, position, tick, settings) {
      FreshOutcome(s, position, tick, settings);
    }
  }

  lemma NextStep(s: ManagedPosition, input: Input)
    requires Consistent(s)
    ensures Consistent(Next(s, input)) && SamePosition(s, Next(s, input)) && ExtremeAdvances(s, Next(s, input))
  {
    match input
    case Observe(position, tick, settings) => EvaluateStep(s, position, tick, settings);
    case _ =>
  }

  /** Every interleaving of operations keeps the invariant and never loses ground on the extreme price. */
  lemma {:induction false} EveryRunIsConsistent(s: ManagedPosition, inputs: seq<Input>)
    requires Consistent(s)
    ensures Consistent(Run(s, inputs)) && SamePosition(s, Run(s, inputs)) && ExtremeAdvances(s, Run(s, inputs))
    decreases |inputs|
  {
    if inputs != [] {
      NextStep(s, inputs[0]);
      EveryRunIsConsistent(Next(s, inputs[0]), inputs[1..]);
    }
  }

  /** From the moment a position is taken under management: whatever happens next, every state is consistent. */
  lemma EveryManagedStateIsConsistent(positionId: int, side: Side, entryPrice: real, initialSl: real, inputs: seq<Input>)
    requires StartManagement(positionId, side, entryPrice, initialSl).Ok?
    ensures var last := Run(StartManagement(positionId, side, entryPrice, initialSl).value, inputs);
            && Consistent(last) && last.positionId == positionId && last.side == side
            && last.entryPrice == entryPrice && last.initialSl == initialSl
  {
    StartIsConsistent(positionId, side, entryPrice, initialSl);
    EveryRunIsConsistent(StartManagement(positionId, side, entryPrice, initialSl).value, inputs);
  }

  /**
   A new action appears only when none was pending, or when a fresh snapshot that does not reflect the
   pending one resolves STALE; it then is the pending action, in the phase it was proposed in.
   */
  lemma EmissionNeedsNoPending(s: ManagedPosition, input: Input)
    requires Consistent(s) && Emitted(s, input).Some?
    ensures Acts(s, input.position, input.tick, input.settings)
    ensures s.pendingAction.None?
            || (s.phase == Stale && !ActionIsReflected(s.pendingAction.value, input.position, input.settings.constraints))
    ensures Next(s, input).pendingAction == Emitted(s, input)
    ensures Next(s, input).phase == Emitted(s, input).value.sourcePhase
  {
    EvaluateSplits(s, input.position, input.tick, input.settings);
    FreshOutcome(s, input.position, input.tick, input.settings);
  }

  /** The defensive "unsupported phase" branch is dead code in every reachable state. */
  lemma PhaseIsAlwaysSupported(s: ManagedPosition, position: BrokerPosition, tick: MarketTick,
                               settings: ManagementSettings)
    requires Consistent(s)
    ensures Evaluate(s, position, tick, settings).reason != PhaseUnsupported
  {
    EvaluateSplits(s, position, tick, settings);
    if Acts(s, position, tick, settings) {
      FreshOutcome(s, position, tick, settings);
    }
  }

  /** CLOSED is entered only on word from the broker that the position is gone, and never left. */
  lemma ClosedOnlyWhenGone(s: ManagedPosition, input: Input)
    requires Consistent(s)
    ensures s.phase == Closed ==> Next(s, input) == s
    ensures s.phase != Closed && Next(s, input).phase == Closed ==>
      || (input.Observe? && input.position.isFresh && input.tick.isFresh && !input.position.present
          && input.position.positionId == s.positionId)
      || (input.Deliver? && input.confirmation.positionExists == Some(false))
  {
    if input.Observe? {
      EvaluateSplits(s, input.position, input.tick, input.settings);
      if Acts(s, input.position, input.tick, input.settings) {
        FreshOutcome(s, input.position, input.tick, input.settings);
      }
    }
  }

  /** The tight trail is never relaxed into the wide one by any single operation. */
  lemma TightNeverWidens(s: ManagedPosition, input: Input)
    requires Consistent(s) && s.phase == TrailTight
    ensures Next(s, input).phase != TrailWide
  {
    if input.Observe? {
      EvaluateSplits(s, input.position, input.tick, input.settings);
      if Acts(s, input.position, input.tick, input.settings) {
        FreshOutcome(s, input.position, input.tick, input.settings);
      }
    }
  }
}
