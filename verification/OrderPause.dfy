/**
 Pausing and resuming.  A pause is meant to keep the phase that management resumes in.  It does so exactly if
 every observation made meanwhile is current and the machine was not itself waiting to return to another phase:
 one stale observation, or a pause during a retry backoff or a stale spell, makes it resume at the break-even
 gate.  A backoff forgets its phase at the first unusable observation.
 */
module OrderPause {
  import opened Common
  import opened OrderManagement
  import opened OrderInvariant

  /** An observation of the managed position itself; it may be stale, but does not show the position gone or another one. */
  predicate OfThisPosition(s: ManagedPosition, input: Input) {
    && input.Observe?
    && (IsCurrent(input) ==> input.position.present
                             && IdentityError(s, input.position, input.settings.constraints).None?)
  }

  predicate IsCurrent(input: Input)
    requires input.Observe?
  {
    input.position.isFresh && input.tick.isFresh
  }

  predicate IsUsable(s: ManagedPosition, input: Input)
    requires input.Observe?
  {
    IsCurrent(input) && input.tick.ClosingPrice(s.side) > 0.0
  }

  ghost predicate AllCurrent(inputs: seq<Input>) {
    forall k :: 0 <= k < |inputs| ==> inputs[k].Observe? && IsCurrent(inputs[k])
  }

  /** Paused with nothing to return to, or stale on the way back to that. */
  predicate HasForgotten(s: ManagedPosition) {
    && s.pendingAction.None?
    && ((s.phase == Paused && s.resumePhase.None?) || (s.phase == Stale && s.resumePhase == Some(Paused)))
  }

  /** One observation of a paused machine. */
  lemma PausedObservation(s: ManagedPosition, input: Input)
    requires s.phase == Paused && s.pendingAction.None? && OfThisPosition(s, input)
    ensures IsCurrent(input) ==> Next(s, input) == s
    ensures !IsCurrent(input) ==> HasForgotten(Next(s, input))
    ensures SamePosition(s, Next(s, input))
  {
  }

  lemma ForgottenObservation(s: ManagedPosition, input: Input)
    requires HasForgotten(s) && OfThisPosition(s, input)
    ensures HasForgotten(Next(s, input)) && SamePosition(s, Next(s, input))
    ensures IsUsable(s, input) ==> Next(s, input).phase == Paused
  {
  }

  ghost predicate AllOfThisPosition(s: ManagedPosition, inputs: seq<Input>) {
    forall k :: 0 <= k < |inputs| ==> OfThisPosition(s, inputs[k])
  }

  lemma StillOfThisPosition(s: ManagedPosition, t: ManagedPosition, inputs: seq<Input>)
    requires SamePosition(s, t) && AllOfThisPosition(s, inputs) && inputs != []
    ensures AllOfThisPosition(t, inputs[1..])
  {
    forall k | 0 <= k < |inputs| - 1
      ensures OfThisPosition(t, inputs[1..][k])
    {
      assert OfThisPosition(s, inputs[k + 1]);
    }
  }

  lemma {:induction false} ForgottenStaysForgotten(s: ManagedPosition, inputs: seq<Input>)
    requires HasForgotten(s) && AllOfThisPosition(s, inputs)
    ensures HasForgotten(Run(s, inputs))
    ensures inputs != [] && IsUsable(s, inputs[|inputs| - 1]) ==> Run(s, inputs).phase == Paused
    decreases |inputs|
  {
    if inputs != [] {
      assert OfThisPosition(s, inputs[0]);
      ForgottenObservation(s, inputs[0]);
      StillOfThisPosition(s, Next(s, inputs[0]), inputs);
      hide Next, HasForgotten, OfThisPosition;
      ForgottenStaysForgotten(Next(s, inputs[0]), inputs[1..]);
    }
  }

  lemma {:induction false} PausedRun(s: ManagedPosition, inputs: seq<Input>)
    requires s.phase == Paused && s.pendingAction.None? && AllOfThisPosition(s, inputs)
    ensures AllCurrent(inputs) ==> Run(s, inputs) == s
    ensures !AllCurrent(inputs) ==> HasForgotten(Run(s, inputs))
    ensures !AllCurrent(inputs) && IsUsable(s, inputs[|inputs| - 1]) ==> Run(s, inputs).phase == Paused
    decreases |inputs|
  {
    if inputs != [] {
      var t := Next(s, inputs[0]);
      assert OfThisPosition(s, inputs[0]);
      PausedObservation(s, inputs[0]);
      StillOfThisPosition(s, t, inputs);
      hide Next, HasForgotten, OfThisPosition;
      if IsCurrent(inputs[0]) {
        PausedRun(t, inputs[1..]);
        assert AllCurrent(inputs) <==> AllCurrent(inputs[1..]) by { FirstAndRest(inputs); }
      } else {
        ForgottenStaysForgotten(t, inputs[1..]);
        OneObservation(s, inputs[0]);
      }
    }
  }

  lemma FirstAndRest(inputs: seq<Input>)
    requires inputs != [] && inputs[0].Observe? && IsCurrent(inputs[0])
    ensures AllCurrent(inputs) <==> AllCurrent(inputs[1..])
  {
    if AllCurrent(inputs[1..]) {
      forall k | 0 <= k < |inputs|
        ensures inputs[k].Observe? && IsCurrent(inputs[k])
      {
        assert k > 0 ==> inputs[1..][k - 1] == inputs[k];
      }
    }
  }

  lemma OneObservation(s: ManagedPosition, input: Input)
    requires input.Observe? && !IsCurrent(input)
    ensures !IsUsable(s, input)
  {
  }

  /** The phase management goes on in: for a backoff or a stale spell, the one it returns to. */
  function Acting(s: ManagedPosition): Phase {
    if s.phase == ErrorRetryable || s.phase == Stale then ResumeOr(s.resumePhase) else s.phase
  }

  /** The last look, if there was any, is a usable one. */
  predicate Settled(s: ManagedPosition, inputs: seq<Input>)
    requires forall k :: 0 <= k < |inputs| ==> inputs[k].Observe?
  {
    inputs != [] ==> IsUsable(s, inputs[|inputs| - 1])
  }

  /** Pausing, seeing only current snapshots and resuming clears the error text and the phase to return to, and nothing else. */
  lemma PauseIsTransparent(s: ManagedPosition, inputs: seq<Input>)
    requires s.phase != Closed && s.phase != Unmanaged && s.phase != Paused && s.pendingAction.None?
    requires AllOfThisPosition(s, inputs) && AllCurrent(inputs)
    ensures Resume(Run(Pause(s).value, inputs)) == s.(resumePhase := None, lastError := None)
    ensures s.resumePhase.None? ==> Resume(Run(Pause(s).value, inputs)) == s.(lastError := None)
  {
    hide Run, Next;
    PausedRun(Pause(s).value, inputs);
  }

  /**
   The promise that pausing keeps the resumable phase, made exact.  Management goes on where it would have gone on
   precisely if that is the break-even gate anyway, or no observation was stale and the machine was neither backing
   off nor stale when it was paused.
   */
  lemma PauseKeepsPhaseIff(s: ManagedPosition, inputs: seq<Input>)
    requires s.phase != Closed && s.phase != Unmanaged && s.phase != Paused && s.pendingAction.None?
    requires AllOfThisPosition(s, inputs) && Settled(s, inputs)
    ensures var resumed := Resume(Run(Pause(s).value, inputs));
            && (Acting(resumed) == Acting(s)
                <==> Acting(s) == WaitingBE || (AllCurrent(inputs) && s.phase != ErrorRetryable && s.phase != Stale))
            && (resumed.phase == s.phase <==> AllCurrent(inputs) || s.phase == WaitingBE)
            && (Acting(resumed) == Acting(s) || Acting(resumed) == WaitingBE)
  {
    hide Run, Next;
    PausedRun(Pause(s).value, inputs);
  }

  const TRAILING_BUY: ManagedPosition :=
    ManagedState(1, Buy, 100.0, 90.0, TrailTight, Some(105.0), None, None, 0, 0.0, None)

  /** Two such states: a backoff of the wide trail and a stale spell of the tight one, paused and resumed at once. */
  lemma PauseForgetsBackoffAndStaleness()
    ensures var backoff := TRAILING_BUY.(phase := ErrorRetryable, resumePhase := Some(TrailWide), retryCount := 1);
            Consistent(backoff) && Acting(backoff) == TrailWide && Acting(Resume(Pause(backoff).value)) == WaitingBE
    ensures var stale := TRAILING_BUY.(phase := Stale, resumePhase := Some(TrailTight));
            Consistent(stale) && Acting(stale) == TrailTight && Acting(Resume(Pause(stale).value)) == WaitingBE
  {
  }

  // ---------- backoff ----------

  /** A backoff that has lost its phase, or is on the way back to being one. */
  predicate BackoffForgotten(s: ManagedPosition, t: ManagedPosition) {
    && t.(phase := s.phase, resumePhase := s.resumePhase, lastError := s.lastError) == s
    && ((t.phase == ErrorRetryable && t.resumePhase.None?) || (t.phase == Stale && t.resumePhase == Some(ErrorRetryable)))
  }

  /** A look at this position during a backoff: unusable, or too early to retry. */
  predicate DuringBackoff(s: ManagedPosition, input: Input) {
    && OfThisPosition(s, input)
    && (IsUsable(s, input) ==> input.tick.observedAt < s.retryNotBefore && s.retryCount <= input.settings.maxRetries)
  }

  ghost predicate AllDuringBackoff(s: ManagedPosition, inputs: seq<Input>) {
    forall k :: 0 <= k < |inputs| ==> DuringBackoff(s, inputs[k])
  }

  ghost predicate AllUsable(s: ManagedPosition, inputs: seq<Input>) {
    forall k :: 0 <= k < |inputs| ==> inputs[k].Observe? && IsUsable(s, inputs[k])
  }

  lemma BackoffLook(s: ManagedPosition, input: Input)
    requires s.phase == ErrorRetryable && s.pendingAction.None? && DuringBackoff(s, input)
    ensures IsUsable(s, input) ==> Next(s, input) == s
    ensures !IsUsable(s, input) ==> BackoffForgotten(s, Next(s, input))
  {
  }

  lemma ForgottenBackoffLook(s: ManagedPosition, t: ManagedPosition, input: Input)
    requires s.phase == ErrorRetryable && s.pendingAction.None? && BackoffForgotten(s, t) && DuringBackoff(s, input)
    ensures BackoffForgotten(s, Next(t, input))
    ensures IsUsable(s, input) ==> Next(t, input).phase == ErrorRetryable
  {
  }

  lemma {:induction false} ForgottenBackoffRun(s: ManagedPosition, t: ManagedPosition, inputs: seq<Input>)
    requires s.phase == ErrorRetryable && s.pendingAction.None? && BackoffForgotten(s, t) && AllDuringBackoff(s, inputs)
    ensures BackoffForgotten(s, Run(t, inputs))
    ensures inputs != [] && IsUsable(s, inputs[|inputs| - 1]) ==> Run(t, inputs).phase == ErrorRetryable
    decreases |inputs|
  {
    if inputs != [] {
      assert DuringBackoff(s, inputs[0]);
      ForgottenBackoffLook(s, t, inputs[0]);
      hide Next, BackoffForgotten, DuringBackoff;
      ForgottenBackoffRun(s, Next(t, inputs[0]), inputs[1..]);
    }
  }

  lemma FirstUsableAndRest(s: ManagedPosition, inputs: seq<Input>)
    requires inputs != [] && inputs[0].Observe? && IsUsable(s, inputs[0])
    ensures AllUsable(s, inputs) <==> AllUsable(s, inputs[1..])
  {
    if AllUsable(s, inputs[1..]) {
      forall k | 0 <= k < |inputs|
        ensures inputs[k].Observe? && IsUsable(s, inputs[k])
      {
        assert k > 0 ==> inputs[1..][k - 1] == inputs[k];
      }
    }
  }

  lemma {:induction false} BackoffRun(s: ManagedPosition, inputs: seq<Input>)
    requires s.phase == ErrorRetryable && s.pendingAction.None? && AllDuringBackoff(s, inputs)
    ensures AllUsable(s, inputs) ==> Run(s, inputs) == s
    ensures !AllUsable(s, inputs) ==> BackoffForgotten(s, Run(s, inputs))
    ensures !AllUsable(s, inputs) && IsUsable(s, inputs[|inputs| - 1]) ==> Run(s, inputs).phase == ErrorRetryable
    decreases |inputs|
  {
    if inputs != [] {
      assert DuringBackoff(s, inputs[0]);
      BackoffLook(s, inputs[0]);
      hide Next, BackoffForgotten, DuringBackoff, IsUsable;
      if IsUsable(s, inputs[0]) {
        FirstUsableAndRest(s, inputs);
        BackoffRun(s, inputs[1..]);
      } else {
        ForgottenBackoffRun(s, Next(s, inputs[0]), inputs[1..]);
      }
    }
  }

  /**
   A backoff keeps its time and its count whatever is seen before it ends.  It retries in the phase it backed off
   from precisely if every look was usable, or that phase is the break-even gate anyway.
   */
  lemma BackoffKeepsPhaseIff(s: ManagedPosition, inputs: seq<Input>)
    requires s.phase == ErrorRetryable && s.pendingAction.None?
    requires AllDuringBackoff(s, inputs) && Settled(s, inputs)
    ensures var t := Run(s, inputs);
            && t.phase == ErrorRetryable && t.retryCount == s.retryCount && t.retryNotBefore == s.retryNotBefore
            && (LeaveBackoff(t).phase == LeaveBackoff(s).phase
                <==> LeaveBackoff(s).phase == WaitingBE || AllUsable(s, inputs))
            && (!AllUsable(s, inputs) ==> LeaveBackoff(t).phase == WaitingBE)
  {
    hide Run, Next, DuringBackoff;
    BackoffRun(s, inputs);
  }

  // ---------- from the tight trail back to the wide one ----------

  /** Neither at the gate's exit nor in the wide trail, nor about to return to either. */
  predicate AwayFromWide(s: ManagedPosition) {
    && s.phase != BEActive && s.phase != TrailWide
    && s.resumePhase != Some(BEActive) && s.resumePhase != Some(TrailWide)
    && (s.pendingAction.Some? ==> s.pendingAction.value.sourcePhase != TrailWide)
  }

  predicate StaysAway(t: ManagedPosition) {
    AwayFromWide(t) || t.phase == BEActive
  }

  lemma ActiveStaysAway(w: ManagedPosition, position: BrokerPosition, closePrice: real, settings: ManagementSettings)
    requires Consistent(w) && AwayFromWide(w)
    ensures StaysAway(EvaluateActive(w, position, closePrice, settings).state)
  {
    hide RoundStop, RThresholdReached, ProfitR, PriceTolerance, DigitQuantum, ClampedTarget, NormalizeStopTarget,
         IsStrictlyMoreProtective, IsAtLeastAsProtective, IdentityError, SameOptionalPrice;
  }

  lemma ObservationStaysAway(s: ManagedPosition, position: BrokerPosition, tick: MarketTick, settings: ManagementSettings)
    requires Consistent(s) && AwayFromWide(s)
    ensures StaysAway(Evaluate(s, position, tick, settings).state)
  {
    hide EvaluateActive, IdentityError, ProfitR, ActionIsReflected;
    var resumed := if s.phase == Stale then Unstale(s) else s;
    var active := if resumed.phase == ErrorRetryable then LeaveBackoff(resumed) else resumed;
    ActiveStaysAway(active, position, tick.ClosingPrice(s.side), settings);
  }

  lemma WideIsEnteredFromBreakeven(s: ManagedPosition, input: Input)
    requires Consistent(s) && AwayFromWide(s)
    ensures StaysAway(Next(s, input))
  {
    hide Evaluate, ConfirmationSlOk, ConfirmationTpOk, RetryDelay;
    if input.Observe? {
      ObservationStaysAway(s, input.position, input.tick, input.settings);
    }
  }

  /** Over a run, the tight trail turns into the wide one only by way of BE_ACTIVE, the exit of the break-even gate. */
  lemma {:induction false} WideOnlyThroughBreakeven(s: ManagedPosition, inputs: seq<Input>)
    requires Consistent(s) && AwayFromWide(s) && Run(s, inputs).phase == TrailWide
    ensures exists k :: 0 <= k <= |inputs| && Run(s, inputs[..k]).phase == BEActive
    decreases |inputs|
  {
    assert inputs != [];
    var t := Next(s, inputs[0]);
    WideIsEnteredFromBreakeven(s, inputs[0]);
    NextStep(s, inputs[0]);
    hide Next, Consistent, AwayFromWide;
    if t.phase == BEActive {
      OneInput(s, inputs);
    } else {
      WideOnlyThroughBreakeven(t, inputs[1..]);
      var k :| 0 <= k <= |inputs[1..]| && Run(t, inputs[1..][..k]).phase == BEActive;
      assert inputs[..k + 1][1..] == inputs[1..][..k];
      assert Run(s, inputs[..k + 1]) == Run(t, inputs[1..][..k]);
    }
  }

  lemma OneInput(s: ManagedPosition, inputs: seq<Input>)
    requires inputs != []
    ensures Run(s, inputs[..1]) == Next(s, inputs[0])
  {
    assert inputs[..1][1..] == [];
    assert Run(Next(s, inputs[0]), []) == Next(s, inputs[0]);
  }

  const SETTINGS: ManagementSettings := SettingsData(WHOLE, None, 1.0, 0.0, 2.0, 2.5, 1.5, 1, 3, 1.0, 30.0)
  const PROTECTED := BrokerPosition(1, Some(Buy), 100.0, Some(100.0), None, true, true)
  const AT_105 := MarketTick(105.0, 105.0, 0.0, true)
  const SEEN := Observe(PROTECTED, AT_105, SETTINGS)
  const MISSED := Observe(PROTECTED, AT_105.(isFresh := false), SETTINGS)

  lemma HalfAnR(m: ManagedPosition)
    requires m.side == Buy && m.entryPrice == 100.0 && m.initialSl == 90.0
    ensures ProfitR(m, 105.0) == 0.5 && !RThresholdReached(m, 0.5, 2.0, WHOLE)
    ensures 0.0 < PriceTolerance(WHOLE) < 1.0
  {
    assert Pow10(0) == 1.0;
    assert PriceTolerance(WHOLE) == 0.000001000001;
  }

  /** Back at the gate with the stop at break-even, two looks at half an R lead to BE_ACTIVE and the wide trail. */
  lemma GateLeadsToWide(m: ManagedPosition)
    requires m == TRAILING_BUY.(phase := WaitingBE)
    ensures Next(m, SEEN).phase == BEActive && Next(Next(m, SEEN), SEEN).phase == TrailWide
  {
    HalfAnR(m);
    hide PriceTolerance, ProfitR, RThresholdReached;
    var t := Next(m, SEEN);
    assert t == m.(phase := BEActive, retryCount := 0, retryNotBefore := 0.0, lastError := None);
    HalfAnR(t);
  }

  lemma SixInputs(m: ManagedPosition, a: Input, b: Input, c: Input, d: Input, e: Input, f: Input)
    ensures Run(m, [a, b, c, d, e, f]) == Next(Next(Next(Next(Next(Next(m, a), b), c), d), e), f)
  {
    hide Next, Run;
    var t := Next(Next(Next(m, a), b), c);
    ThreeInputs(m, a, b, c, [d, e, f]);
    ThreeInputs(t, d, e, f, []);
    RunStep(Next(Next(Next(t, d), e), f), a, []);
    assert [a, b, c] + [d, e, f] == [a, b, c, d, e, f];
    assert [d, e, f] + [] == [d, e, f];
  }

  /** It does happen: pause, a stale look, a fresh one, resume, and the tight trail becomes the wide one. */
  lemma PauseCanWiden()
    ensures Run(TRAILING_BUY, [PauseNow, MISSED, SEEN, ResumeNow, SEEN, SEEN]).phase == TrailWide
  {
    HalfAnR(TRAILING_BUY);
    var paused := Next(TRAILING_BUY, PauseNow);
    assert Next(paused, MISSED) == paused.(phase := Stale, resumePhase := Some(Paused),
                                           lastError := Some(BrokerSnapshotUnavailable));
    assert Next(Next(paused, MISSED), SEEN) == paused.(resumePhase := None);
    assert Next(paused.(resumePhase := None), ResumeNow) == TRAILING_BUY.(phase := WaitingBE);
    GateLeadsToWide(TRAILING_BUY.(phase := WaitingBE));
    SixInputs(TRAILING_BUY, PauseNow, MISSED, SEEN, ResumeNow, SEEN, SEEN);
  }
}
