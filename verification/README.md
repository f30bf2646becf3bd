# Verified model of the trading engine's decision cores

This project models, in Dafny, the parts of the repository whose behaviour is hardest to see from reading
one function, and proves what they promise.

- **Break-even and trailing-stop management** (`core/order_management_state_machine.py`). A ten-phase machine
  watches one open position through broker snapshots and proposes at most one stop-loss change at a time.
  `OrderManagement` models its operations branch by branch. `StopNormalization`, `OrderActionSafety`,
  `OrderTrailing`, `OrderBreakeven`, `OrderOnPrices`, `OrderIdentity` and `OrderConfirmation` are about single
  calls, the last three said in prices and fields alone; `OrderInvariant`, `OrderPause`,
  `OrderAcknowledgement`, `OrderRetry` and `OrderRetryStale` are about runs of the machine alone.
  `OrderGateway` models the last check before a request is sent (`modify_position_sltp` in
  `services/mt5_service.py`). `OrderBroker` puts machine and gateway together with an unreliable broker that
  may drop a request, execute it late or a little off, lose or falsify its reply, show stale snapshots or
  close the position, while the user pauses, resumes and edits the stop by hand; `OrderProgress`,
  `OrderDemotion` and `OrderBrokerLimits` are about what such runs reach.
- **The Location engine** (`core/location_engine.py`) with its indicators (`core/indicators.py`, in
  `Indicators` and `IndicatorMeaning`). From candles it builds a point-in-time list of support and resistance
  zones and scores both trade sides. `LocationModel` and `LocationScoring` say what is computed;
  `LocationEngine` holds the loops, proved to compute it; `LocationSwings`, `LocationZones`, `LocationDedupe`,
  `LocationLifecycle`, `LocationStatusMeaning`, `LocationCausality`, `LocationRepainting`, `LocationBarCap`,
  `LocationCapExample`, `LocationSelection`, `LocationChoice`, `LocationSymmetry`, `LocationScoreMeaning` and
  `LocationMonotonicity` prove what it means.
- **Three smaller loops**: merging and checking candle lists (`Candles`), the equity-curve drawdown
  (`Drawdown`) and the longest-first phrase matcher (`LexiconScan`).

`Common`, `Grid` and `Sorting` are shared: results and options, rounding onto a price grid, stable sorting.

Conventions. Prices, times in seconds, ATRs and R multiples are exact reals or integers. An exception the
source raises is an `Err` value. A loop of the source is a method with a loop, proved equal to a recursive
specification function or to a declarative predicate; the lemmas are about that specification. Code the
source writes without loops or mutation is a function.

Eight places where what one would expect of the code is not quite true of it, stated exactly:

- A stop request goes out only if break-even survives rounding onto the price grid. `BreakevenSentIff` gives
  the exact condition, `OffGridBreakevenIsNeverSent` the consequence, `OffGridBreakevenExample` an instance.
- The machine can believe in break-even protection and later demote itself, although nobody moved the stop.
  This needs a break-even price off the digit grid, by a gap within the tolerance that rounding and execution
  can widen beyond it. `DemotionFiresIff` states it as an if-and-only-if over the broker terms and the
  position; `QuotableBreakevenIsSafe` is the usual case, in which it never happens.
- Pausing is documented to keep the resumable phase. A stale observation while paused makes the machine forget
  it, and so does the pause itself if it interrupts a backoff or a stale spell; it then resumes at WAITING_BE.
  `PauseKeepsPhaseIff` says exactly when the phase is kept.
- Retries are documented as bounded. At break-even one stale look per failure resets the count, and a trailing
  request can fail without end (`RetriesAreUnbounded`). Short of break-even the bound survives stale looks
  (`RetriesAreBoundedShortOfBreakeven`).
- The comparison that protects hand edits overlooks one kind of stop, a SELL stop within half a step of price
  zero, given a broker that accepts such a stop. `SentRequestLoosensIff` shows it is the only one,
  `GuardedRequestOverlooksAStop` what happens to it.
- A truthful confirmation can end in the non-retryable error. The gateway calls prices equal within half a step
  and rounds half-up, the machine compares within a millionth of a step; `TruthfulConfirmationFailsIff` names
  the three causes exactly, `UnsentRequestEndsInError` and `RoundedTakeProfitEndsInError` show two at work.
- Beyond the bar cap a zone can be repainted (`CapCanRepaint`). `NotRepaintedIff` says exactly when not:
  one ATR of one bar decides for all zones at once, besides the bars of each zone being kept.
- A first opposing zone can raise a Location score, because having no obstacle is scored with a fixed factor
  below one. `FurtherObstaclesRaiseExactIff` gives the exact condition and `FirstObstacleCanRaise` an instance.

## Model

| member | source | states |
|---|---|---|
| StopNormalization.RoundStopMirrors | core/order_management_state_machine.py:580-600 | rounding a SELL stop up is rounding a BUY stop down in the price mirror |
| StopNormalization.RoundStopBrackets | core/order_management_state_machine.py:580-600 | rounding moves a stop only away from the price, by less than one tick plus one digit quantum |
| StopNormalization.NormalizedStopIsConservative | core/order_management_state_machine.py:567-600 | a normalized BUY stop exceeds neither the target nor the nearest allowed stop and is within a tick and a quantum of one of them; mirrored for SELL |
| StopNormalization.RoundStopOnBothGrids | core/order_management_state_machine.py:594-600 | when tick or quantum divides the other, the result lies on both grids |
| StopNormalization.NormalizeIsIdempotent | core/order_management_state_machine.py:567-600 | normalizing a normalized stop again at the same price changes nothing (one step dividing the other) |
| StopNormalization.SmallQuantumMisses | core/order_management_state_machine.py:594-600 | a finer quantum that does not divide the tick rounds the first tick off the tick grid |
| StopNormalization.LargeQuantumMisses | core/order_management_state_machine.py:594-600 | a coarser quantum that is no multiple of the tick rounds some tick price off the tick grid |
| StopNormalization.BothGridsIffOneStepDivides | core/order_management_state_machine.py:594-600 | all positive prices normalize onto both grids exactly when one step divides the other |
| OrderActionSafety.BreakevenActionIsSafe | core/order_management_state_machine.py:603-707 | a break-even request is tighter than the broker stop, break-even within tolerance and respects the broker distance |
| OrderActionSafety.TrailingActionIsSafe | core/order_management_state_machine.py:710-794 | a trailing request is tighter than the broker stop, strictly beyond break-even and respects the broker distance |
| OrderActionSafety.EmittedActionIsSafe | core/order_management_state_machine.py:255-469 | every action any evaluation emits is safe: tighter by the required step, at break-even (strictly beyond it when trailing), far enough from the price, stamped with the snapshot it answers |
| OrderActionSafety.ClampedRoundsIff | core/order_management_state_machine.py:649-669 | the clamped target rounds to break-even iff both break-even and the nearest allowed stop do |
| OrderActionSafety.BreakevenSentIff | core/order_management_state_machine.py:637-681 | an unprotected waiting position gets a break-even request iff the trigger is reached, break-even and the nearest allowed stop both survive rounding, and the step is large enough |
| OrderActionSafety.OffGridBreakevenIsNeverSent | core/order_management_state_machine.py:649-669 | if break-even does not survive rounding onto the grid, no observation whatever makes the machine send it |
| OrderActionSafety.OnGridBreakevenIsRepresentable | core/order_management_state_machine.py:649-669 | break-even on both grids always survives rounding |
| OrderActionSafety.OffGridBreakevenExample | core/order_management_state_machine.py:649-669 | a concrete tick and offset for which break-even is refused at every price |
| OrderBreakeven.ToleranceIsFine | core/order_management_state_machine.py:939-941 | up to eleven digits, twice the price tolerance is less than one digit quantum |
| OrderBreakeven.OneBreakevenStop | core/order_management_state_machine.py:649-669 | every target on the losing side of break-even that still passes for break-even is one and the same grid price |
| OrderBreakeven.EmittedTargetIsBeyondOrBreakeven | core/order_management_state_machine.py:255-469 | every stop ever asked for lies strictly beyond break-even, except the rounded break-even stop itself, and that only where it is sendable |
| OrderTrailing.TriggerIsAPriceLevel | core/order_management_state_machine.py:863-883 | an R trigger is reached iff the closing price has reached entry plus that many risks, up to the price tolerance |
| OrderTrailing.ExtremeIsTheBest | core/order_management_state_machine.py:886-895 | the extreme price is the better, for the side, of the price now and the best so far |
| OrderTrailing.TrailingSentIff | core/order_management_state_machine.py:710-794 | a trailing observation moves to the stage its price has earned and sends a stop iff the ATR is known and the rounded trail target is positive and improves the broker stop by a whole update |
| OrderTrailing.TrailFollowsBestPrice | core/order_management_state_machine.py:723-768 | a stop that is sent lies behind the best price by the stage distance, or at the broker minimum, give or take a tick and a quantum |
| OrderTrailing.TrailTargetAdvances | core/order_management_state_machine.py:723-752 | within a stage a better price moves the trail target only in the protective direction |
| OrderOnPrices.StartIff | core/order_management_state_machine.py:209-231 | a position can be managed iff its id and prices are positive and its stop is on the losing side; the state it starts in |
| OrderOnPrices.PauseMeaning | core/order_management_state_machine.py:234-252 | pausing is refused only while a request is pending; what pausing and resuming set |
| OrderOnPrices.MinimumDistanceMeaning | core/order_management_state_machine.py:88-91 | the distance kept from the price is the larger of the broker's stop and freeze level |
| OrderOnPrices.NormalizeMeaning | core/order_management_state_machine.py:567-600 | when a target can be normalized, and the stop it becomes, in prices |
| OrderOnPrices.GateMeaning | core/order_management_state_machine.py:603-707 | the break-even gate on prices: reconciled, waiting, blocked, not worth it or asked for, each under its exact price condition, with state and action in full |
| OrderOnPrices.TrailMeaning | core/order_management_state_machine.py:710-794 | the trail on prices: stage, best price, ATR distance, blocked, not worth it or asked for, with state and action in full |
| OrderOnPrices.ActiveMeaning | core/order_management_state_machine.py:380-462 | what a live phase answers: a pending action settled or awaited, a lost break-even sent back to the gate, the trail armed or followed |
| OrderOnPrices.LivePhaseMeaning | core/order_management_state_machine.py:255-462 | and that evaluate gives that answer to every usable observation |
| OrderOnPrices.BackoffMeaning | core/order_management_state_machine.py:357-377 | a backoff gives up once retries are used up, waits for its time, and then goes on as the phase it came from |
| OrderOnPrices.StaleMeaning | core/order_management_state_machine.py:310-339 | a usable observation ends a stale spell: a pending action it shows counts as confirmed, one it does not show is dropped |
| OrderOnPrices.ProfitMeaning | core/order_management_state_machine.py:863-870 | profit times initial risk is the gain over the entry price |
| OrderIdentity.ToleranceMeaning | core/order_management_state_machine.py:939-941 | the price tolerance is a millionth of the smaller of tick and digit quantum, plus 1e-12 |
| OrderIdentity.RefusedIffForeign | core/order_management_state_machine.py:274-286 | a fresh observation is refused iff its id or side differs, or the position is present with an entry that is not positive or not the managed one; what that leaves behind |
| OrderIdentity.UnusableObservation | core/order_management_state_machine.py:268-307 | how stale, closing, paused, failed and unpriced observations are answered |
| OrderIdentity.EmittedOnlyForOwnPosition | core/order_management_state_machine.py:255-469 | every action of every run answers a fresh snapshot of the managed id, side and entry |
| OrderConfirmation.ConfirmedMeaning | core/order_management_state_machine.py:500-523 | CONFIRMED is believed iff stop and take-profit are as requested, in prices; otherwise the wrong one is named |
| OrderConfirmation.ReflectedMeaning | core/order_management_state_machine.py:820-828 | a snapshot shows a pending action executed iff it shows both prices |
| OrderConfirmation.UnconfirmedMeaning | core/order_management_state_machine.py:491-564 | the state after every other execution result |
| OrderConfirmation.DelayMeaning | core/order_management_state_machine.py:537-539 | the first retry waits the base delay, each further one twice as long, none longer than a cap |
| OrderConfirmation.RejectionEndsManagement | core/order_management_state_machine.py:558-564 | after a rejection no run without a pause proposes anything again, stale looks or not |
| OrderConfirmation.BrokenPostconditionEndsManagement | core/order_management_state_machine.py:516-523 | nor after a confirmation that shows the wrong stop or take-profit |
| OrderInvariant.EvaluateStep | core/order_management_state_machine.py:255-469 | an evaluation keeps the invariant and the position identity, and the extreme price never moves back |
| OrderInvariant.NextStep | core/order_management_state_machine.py:234-564 | so does every operation: evaluate, apply_confirmation, pause, resume, including those that raise |
| OrderInvariant.EveryRunIsConsistent | core/order_management_state_machine.py:234-564 | over every interleaving: a pending action is in its source phase or STALE resuming to it, its reason matches the source phase, and the extreme price is monotone |
| OrderInvariant.EveryManagedStateIsConsistent | core/order_management_state_machine.py:209-564 | from start_management on, every state reached by any operations in any order is consistent and still about the same position |
| OrderInvariant.EmissionNeedsNoPending | core/order_management_state_machine.py:310-327 | an action is emitted only with none pending, or when a fresh snapshot that does not reflect the pending one resolves STALE |
| OrderInvariant.PhaseIsAlwaysSupported | core/order_management_state_machine.py:464-469 | the unsupported-phase branch is unreachable |
| OrderInvariant.ClosedOnlyWhenGone | core/order_management_state_machine.py:288-296 | CLOSED is absorbing and entered only on fresh word from the broker that the position is gone |
| OrderInvariant.TightNeverWidens | core/order_management_state_machine.py:717-721 | no single operation turns TRAIL_TIGHT into TRAIL_WIDE |
| OrderPause.PauseIsTransparent | core/order_management_state_machine.py:234-252 | pausing, seeing only current snapshots and resuming clears the error text and the phase to return to, and changes nothing else |
| OrderPause.PauseKeepsPhaseIff | core/order_management_state_machine.py:234-252 | the documented promise that a pause keeps the resumable phase, made exact: management goes on where it would have iff that is WAITING_BE anyway, or no observation was stale and the machine was neither backing off nor stale when paused; otherwise at WAITING_BE |
| OrderPause.PauseForgetsBackoffAndStaleness | core/order_management_state_machine.py:243-243 | a backoff of the wide trail and a stale spell of the tight one, paused and resumed at once, both go on at WAITING_BE |
| OrderPause.BackoffKeepsPhaseIff | core/order_management_state_machine.py:329-377 | over any looks made before it ends a backoff keeps its time and count; it retries in its own phase iff every look was usable or that phase is WAITING_BE |
| OrderPause.WideOnlyThroughBreakeven | core/order_management_state_machine.py:433-462 | over a run the tight trail becomes the wide one only by way of BE_ACTIVE |
| OrderPause.PauseCanWiden | core/order_management_state_machine.py:234-462 | and it can: pause, a stale look, a fresh one, resume and two more looks turn TRAIL_TIGHT into TRAIL_WIDE |
| OrderAcknowledgement.SilenceKeepsThePendingAction | core/order_management_state_machine.py:550-556 | stale snapshots and UNKNOWN results, however many, change nothing but the STALE bookkeeping |
| OrderAcknowledgement.SnapshotSettlesPending | core/order_management_state_machine.py:310-392 | a usable snapshot settles a pending action: confirmed iff reflected, and never an error |
| OrderAcknowledgement.LostAcknowledgementIsHarmless | core/order_management_state_machine.py:500-515 | silence followed by a fresh snapshot gives the state CONFIRMED would have given, exactly when the broker reflects the action |
| OrderRetry.QuoteStep | core/order_management_state_machine.py:341-369 | a quote keeps the retry invariant; before the backoff ends it changes nothing |
| OrderRetry.ErrorStep | core/order_management_state_machine.py:525-548 | a retryable error counts once, schedules the backoff, or exhausts the retries |
| OrderRetry.RunKeepsRetryInvariant | core/order_management_state_machine.py:341-548 | over every such run the number of proposals equals the retry count plus the one pending, and the count never falls |
| OrderRetry.RetriesAreBounded | core/order_management_state_machine.py:525-548 | at most max_retries + 1 actions are proposed; the non-retryable error is reached exactly when the count is exhausted |
| OrderRetry.BackoffIsRespected | core/order_management_state_machine.py:357-369 | any number of quotes before retry_not_before changes nothing and proposes nothing |
| OrderRetry.BackoffGrowsToItsCap | core/order_management_state_machine.py:537-539 | backoff delays never shrink, stay below a configured cap, and double without one |
| OrderRetryStale.StaleLookResetsCount | core/order_management_state_machine.py:617-635 | one stale look in a backoff and a usable one after it, with the stop at break-even: BE_ACTIVE with the retry count at zero |
| OrderRetryStale.RetriesAreUnbounded | core/order_management_state_machine.py:357-548 | so a trailing request can be proposed and fail any number of times, one stale look per failure, without the final error |
| OrderRetryStale.SomeMachineRests | core/order_management_state_machine.py:710-794 | a concrete machine from which that run starts |
| OrderRetryStale.RetriesAreBoundedShortOfBreakeven | core/order_management_state_machine.py:357-548 | while the stop is short of break-even the bound survives any stale looks: every proposal is answered by an error, given up for staleness, or pending, and errors never exceed max_retries + 1 |
| OrderGateway.NormalizeIsMonotone | services/mt5_service.py:3450-3474 | half-up rounding onto tick and digit grid keeps the order of prices, for all steps |
| OrderGateway.SentRequestLoosensIff | services/mt5_service.py:2230-2283 | a compared request that is sent and placed within slack loosens the current stop iff that is a SELL stop the machine had not seen within half a step of zero; no grid condition is needed |
| OrderGateway.MatchToleranceMeaning | services/mt5_service.py:3476-3486 | prices match within the largest of half a tick, half a quantum and 1e-12 |
| OrderGateway.NormalizeStaysNear | services/mt5_service.py:3450-3474 | half-up rounding moves a price by at most half a tick and half a quantum |
| OrderGateway.RuleMeaning | services/mt5_service.py:2230-2283 | a compared request is refused iff stop or take-profit is no longer the one seen, and otherwise sent iff the stop changes; what is sent |
| OrderGateway.UnguardedRuleMeaning | services/mt5_service.py:2230-2283 | a request sent without the comparison is never refused and goes out iff it changes the stop or a given take-profit by more than half a step |
| OrderGateway.SentRequestKeepsTakeProfit | services/mt5_service.py:2230-2262 | a take-profit moved by hand by more than half a step is never overwritten |
| OrderProgress.ConfirmedAskArms | core/order_management_state_machine.py:500-515 | a break-even request that is sent, placed and confirmed brings the machine to BE_ACTIVE with that stop |
| OrderProgress.BreakevenIsReached | core/order_management_state_machine.py:603-707 | with quotable break-even, stop and take-profit, the trigger reached and the nearest allowed stop at or beyond break-even, a look, an execution and a confirmation reach BE_ACTIVE with the stop at break-even |
| OrderProgress.TruthfulConfirmationFailsIff | core/order_management_state_machine.py:500-523 | a request the gateway does not refuse, carried out to the letter and confirmed truthfully, ends in the non-retryable error iff it was not sent, or half-up rounding took its stop or its take-profit out of the machine's tolerance |
| OrderProgress.UnsentConfirmationFails | services/mt5_service.py:2263-2283 | in particular every request confirmed without being sent, because the stop is within half a step of it |
| OrderProgress.QuotableRequestSurvives | services/mt5_service.py:2230-2283 | with quotable prices every request is sent and survives rounding |
| OrderBrokerLimits.UnsentRequestEndsInError | services/mt5_service.py:2263-2283 | an instance: a stop at 99.6 and a request for 100 on whole prices |
| OrderBrokerLimits.RoundedTakeProfitEndsInError | services/mt5_service.py:2199-2203 | an instance of the other cause: a take-profit of 120.4 is sent back as 120 |
| OrderBroker.LookStep | core/order_management_state_machine.py:255-469 | a fresh look keeps the joint invariant of machine and broker |
| OrderBroker.ConfirmationMeansExecuted | core/order_management_state_machine.py:500-515 | a reply the machine accepts as confirmation means the broker did execute the request |
| OrderBroker.ReflectedHoldsFloor | core/order_management_state_machine.py:820-828 | once the broker is seen to protect a pending target, break-even is protected up to the margin |
| OrderBroker.ReplyStep | core/order_management_state_machine.py:472-564 | any reply, truthful or not about its own status, keeps the joint invariant |
| OrderBroker.SystemStep | core/order_management_state_machine.py:234-564 | every step of machine, broker or pausing user keeps the joint invariant and never loosens the stop |
| OrderBroker.EveryStateKeepsInvariant | core/order_management_state_machine.py:234-564 | the joint invariant holds in every state of every run without hand edits |
| OrderBroker.StopOnlyTightens | core/order_management_state_machine.py:617-707 | over any run without hand edits, between any two moments, the broker stop only moves in the protective direction |
| OrderBroker.BreakevenIsNeverLost | core/order_management_state_machine.py:402-427 | once a break-even phase has been reached, the broker stop protects break-even for the rest of the run, up to a margin: one tolerance, or where demotion is possible the rounding gap plus what execution may add and the machine still accept |
| OrderBroker.DemotionNeverFires | core/order_management_state_machine.py:402-427 | unless terms and position make it possible, the broker_sl_below_breakeven demotion never happens and every fresh look in a protected phase finds the stop at break-even |
| OrderBroker.QuotableBreakevenIsSafe | core/order_management_state_machine.py:402-427 | if break-even lies on the digit grid the demotion is impossible for every slack up to half a step, and the margin is one tolerance |
| OrderDemotion.DemotionRun | core/order_management_state_machine.py:402-427 | wherever the demotion is possible, an explicit run of four events without hand edits reaches it, from no stop or any quotable stop the request improves on |
| OrderDemotion.DemotionFromInitialStop | core/order_management_state_machine.py:209-231 | so it does from the position's own initial stop, if that and the break-even stop are different quotable prices |
| OrderDemotion.DemotionFiresIff | core/order_management_state_machine.py:209-564 | from start_management on, for every slack up to half a step, some run without hand edits demotes iff the rounded break-even stop is sendable and not break-even itself, and gateway and broker may place it within the machine's tolerance of the stop but more than that short of break-even |
| OrderBroker.GuardedStep | services/mt5_service.py:2230-2283 | whatever the user has done to the stop, a guarded step loosens it iff it executes a request over an overlooked SELL stop next to price zero |
| OrderBroker.OnlyTheUserLoosens | services/mt5_service.py:2230-2283 | in runs full of hand edits every loosening is the user's, with that one exception, exactly |
| OrderBrokerLimits.SlackAllowsDemotion | core/order_management_state_machine.py:402-427 | an instance of the demotion: an offset one tolerance off a grid of whole prices and any positive slack |
| OrderBrokerLimits.UnguardedRequestLoosensAnEdit | services/mt5_service.py:2230-2262 | without the comparison a request in flight can undo a tighter stop set by hand |
| OrderBrokerLimits.GuardedRequestOverlooksAStop | services/mt5_service.py:2230-2262 | the exception exists: a SELL stop set by hand at 0.4 of a whole-price grid is taken for none and replaced by 100 |
| Indicators.Ema | core/indicators.py:4-14 | the loop computes the EMA series, one value per input, or rejects the period |
| Indicators.EmaIsBounded | core/indicators.py:4-14 | every EMA value lies within any bounds of the inputs seen so far |
| Indicators.EmaIsCausal | core/indicators.py:4-14 | the EMA of a prefix is the prefix of the EMA |
| IndicatorMeaning.EmaForgets | core/indicators.py:10-14 | once the input stays at a value, the distance of the EMA from it shrinks by 1 - 2/(period + 1) per input |
| IndicatorMeaning.EmaWeightMeaning | core/indicators.py:10-10 | a new input weighs two parts in period + 1 |
| Indicators.MacdIsCausal | core/indicators.py:45-63 | line, signal and histogram of a prefix are prefixes of those of the whole |
| IndicatorMeaning.MacdMeaning | core/indicators.py:56-63 | line is fast minus slow average, signal the average of the line, histogram their difference |
| IndicatorMeaning.RisingPricesLiftTheLine | core/indicators.py:56-59 | while prices have not fallen the faster average leads, so the line is not negative |
| Indicators.Atr | core/indicators.py:66-89 | the loops compute the Wilder-smoothed true ranges, with the source's length and period errors |
| Indicators.AtrIsBounded | core/indicators.py:66-89 | a defined ATR lies within any bounds of the true ranges seen so far |
| Indicators.AtrIsCausal | core/indicators.py:66-89 | the ATR of the first n bars is the first n values of the ATR |
| IndicatorMeaning.TrueRangeMeaning | core/indicators.py:74-78 | the true range is the length of the smallest interval holding the bar and the previous close |
| IndicatorMeaning.WilderForgets | core/indicators.py:83-89 | once its input stays at a value, the Wilder average approaches it by a factor (period - 1)/period per bar |
| IndicatorMeaning.FirstAverageIsTheMean | core/indicators.py:83-84 | the first defined average is the plain mean of the first period inputs |
| IndicatorMeaning.DefinedFrom | core/indicators.py:80-84 | ATR and RSI are undefined exactly before enough inputs |
| IndicatorMeaning.AtrErrors | core/indicators.py:67-72 | when the ATR is refused, and when it is empty |
| Indicators.Rsi | core/indicators.py:17-42 | the loops compute the RSI of the Wilder-smoothed gains and losses |
| Indicators.RsiIsBounded | core/indicators.py:17-42 | every defined RSI lies in [0, 100] |
| Indicators.RsiIsCausal | core/indicators.py:17-42 | the RSI of a prefix is the prefix of the RSI |
| IndicatorMeaning.RsiIsFullIff | core/indicators.py:17-42 | the RSI is 100 iff no price it remembers has fallen: none so far, or for period one not the last |
| IndicatorMeaning.RsiMirrorsIff | core/indicators.py:17-42 | the RSI of the negated series is 100 minus the RSI iff some price it remembers has moved at all |
| IndicatorMeaning.RsiIsShareOfGains | core/indicators.py:31-42 | the RSI is the share of the average gain in average gain and loss, in percent |
| LocationEngine.ClosedCandlesAtCutoff | core/location_engine.py:786-824 | rejects a stream that is not strictly increasing; else the newest max_bars of the bars closed at the cutoff, the cap applied after the filter |
| LocationEngine.H4HistoryAtCutoff | core/location_engine.py:827-863 | the capped closed history, or the first error: config, order, too few bars, first faulty bar |
| LocationStatusMeaning.HistoryMeaning | core/location_engine.py:827-863 | a history is the capped list of closed bars, accepted iff times increase, 60 bars are kept and every kept bar is usable |
| LocationStatusMeaning.CandleFaultMeaning | core/location_engine.py:619-637 | a bar is usable iff its prices are positive and open and close lie between low and high |
| LocationEngine.SwingPointsFromHistory | core/location_engine.py:892-940 | the scan lists the swings of the history in order |
| LocationEngine.ZonesOfSwings | core/location_engine.py:977-1023 | zones of all swings in order; one impossible zone fails the build |
| LocationEngine.DeduplicateZones | core/location_engine.py:1091-1130 | the dictionary loop computes the canonical form of a zone list, or the id conflict |
| LocationEngine.ScanBreaches | core/location_engine.py:1189-1229 | the breach-streak loop finds INVALIDATED iff enough consecutive closes lie strictly beyond the break line, else EXPIRED iff over age, else SUSPECT iff the last close breaches, else ACTIVE |
| LocationEngine.UpdateFromHistory | core/location_engine.py:1161-1233 | each live zone gets the status of its closes, dead zones are kept, the first data error wins |
| LocationEngine.UpdateLifecycle | core/location_engine.py:1133-1158 | the same on any zone list and the adapter candles, with validation and deduplication first |
| LocationEngine.BuildLocationZones | core/location_engine.py:943-961 | zones from candles: validation, history, swings, sizing, deduplication, lifecycle |
| LocationEngine.BuildLocationContext | core/location_engine.py:1412-1485 | the context from candles and reference price, or the first error |
| LocationStatusMeaning.ContextMeaning | core/location_engine.py:1412-1485 | when a context is built; it holds what it was given, the zones of a build and the ATR of the last closed bar |
| LocationSwings.StrictPeak | core/location_engine.py:919-929 | being the maximum and occurring once is being strictly above all other values of the window |
| LocationSwings.SwingPointsMeaning | core/location_engine.py:892-940 | the scan finds exactly the bars that stand strictly out from lookback bars on either side and whose last such bar has closed by the cutoff |
| LocationZones.SnappedBoundsMeaning | core/location_engine.py:990-999 | zone bounds cover the band around the level; with a tick they lie on its grid and are less than one tick wider on each side |
| LocationZones.SnappingNeverEmpties | core/location_engine.py:995-999 | the branch that widens an empty snapped zone is never taken |
| LocationZones.MadeZoneMeaning | core/location_engine.py:977-1023 | a built zone keeps the swing identity and times, carries the ATR of its confirmation bar, covers the level by half a width on each side and is no wider than allowed |
| LocationZones.UntickedWidthIsAConfigQuestion | core/location_engine.py:1001-1010 | without a tick the width check passes every zone or none, by the configuration alone |
| LocationDedupe.ConflictMeaning | core/location_engine.py:1105-1118 | an id conflict is two different records of one id, wherever they stand |
| LocationDedupe.DeduplicatedMeaning | core/location_engine.py:1091-1130 | deduplication fails exactly when two records share an id and differ; else it returns exactly the given records, ids unique, sorted |
| LocationDedupe.DedupeIsCanonical | core/location_engine.py:1091-1130 | success and result depend only on which records are given, not on order or repetition |
| LocationDedupe.DedupeIsIdempotent | core/location_engine.py:1091-1130 | deduplicating twice is deduplicating once |
| LocationStatusMeaning.CanonicalOrder | core/location_engine.py:1120-1130 | canonical order is supports first, then by confirmation, then by id text |
| LocationLifecycle.DeadStaysDead | core/location_engine.py:1189-1229 | as closes are added INVALIDATED stays, and {INVALIDATED, EXPIRED} is never left |
| LocationStatusMeaning.StatusOnPrices | core/location_engine.py:1189-1231 | the status of a live zone from the closes of its confirmation bar and all later ones: INVALIDATED, EXPIRED, SUSPECT and ACTIVE, each iff, with the break line a buffer of ATRs outside the zone |
| LocationStatusMeaning.CalmZoneIsNotBroken | core/location_engine.py:1189-1229 | a zone whose closes all stay within its buffer is neither SUSPECT nor INVALIDATED |
| LocationStatusMeaning.UpdateErrors | core/location_engine.py:1172-1187 | when an update fails, and that dead zones are never touched |
| LocationLifecycle.UpdatedMeaning | core/location_engine.py:1161-1233 | a list is updated zone by zone and fails iff one of its zones fails |
| LocationLifecycle.UpdateIsIdempotent | core/location_engine.py:1161-1233 | updating the updated list changes nothing |
| LocationLifecycle.LifecycleIsIdempotent | core/location_engine.py:1133-1158 | nor does the public form with its own deduplication |
| LocationCausality.LaterBarsChangeNothing | core/location_engine.py:827-863 | bars that close after the cutoff leave history, zones, statuses, current ATR and the whole context unchanged, even with the bar cap active |
| LocationCausality.CutoffOnlyAppends | core/location_engine.py:786-824 | a later cutoff only appends bars, all closing after the earlier cutoff |
| LocationCausality.SwingsBeforeShape | core/location_engine.py:892-940 | every swing is confirmed by a known bar by the cutoff, and swing ids are distinct |
| LocationCausality.SwingsOnlyAppend | core/location_engine.py:892-940 | a later history has the earlier swings first, and all others are confirmed after the earlier cutoff |
| LocationCausality.FormationAtrIsCausal | core/location_engine.py:978-983 | the ATR that sizes a zone does not depend on bars after its confirmation |
| LocationCausality.BuildAllAppends | core/location_engine.py:975-1023 | building more swings only appends zones and cannot repair a failed build |
| LocationRepainting.BuildNeverTripsItsOwnStages | core/location_engine.py:964-1031 | on a built zone list deduplication and lifecycle never fail; the result is exactly the raw zones, each aged, ids distinct |
| LocationRepainting.SizingFailsIff | core/location_engine.py:984-1023 | sizing a swing raises exactly when the zone would be kept by the width check and its low is not positive |
| LocationRepainting.BuildFailsOnlyAtZero | core/location_engine.py:984-1023 | a build from a history fails exactly when some swing's kept zone would reach down to price zero |
| LocationRepainting.BuildReportsNoStageError | core/location_engine.py:943-1031 | no build from candles ever reports a conflicting id, future data or a missing confirmation bar |
| LocationRepainting.BuiltContextIsSound | core/location_engine.py:1412-1485 | a built context passes its own construction checks, carries an ATR, reuses no id and holds no zone confirmed after the cutoff |
| LocationRepainting.RawZonesOnlyAppend | core/location_engine.py:964-1023 | before aging, a later build has the earlier zones first and otherwise only zones confirmed after the earlier cutoff |
| LocationRepainting.ZonesAreNeverRepainted | core/location_engine.py:943-1031 | below the bar cap, a later build keeps every earlier zone in all but status, revives none, and adds only zones confirmed after the earlier cutoff; the earlier build succeeds iff it had enough bars |
| LocationBarCap.CapKeepsSwings | core/location_engine.py:817-824 | with the bar cap active too, a swing confirmed by the earlier cutoff is found later iff it was found earlier and its bars are still in the window, with the same id, role, level and times |
| LocationBarCap.ZoneCarriesItsAtr | core/location_engine.py:977-1023 | a zone carries the ATR that the history gives the bar that confirmed it |
| LocationBarCap.ZonesKeptIffSizingAgrees | core/location_engine.py:943-1031 | with the bar cap active too, all or none: an earlier zone is kept, changed in status only and not revived, iff the later window covers it and both windows give one and the same bar the same ATR; a later zone confirmed by the earlier cutoff was there before iff they do |
| LocationBarCap.AtrsAgreeTogether | core/indicators.py:83-89 | two windows onto the same bars agree on one ATR, from the first both have, iff they agree on all |
| LocationBarCap.NotRepaintedIff | core/location_engine.py:943-1031 | no repainting holds iff every earlier zone is still covered by the later window and the windows agree on that ATR, or there is no zone for it to size |
| LocationCapExample.CapCanRepaint | core/location_engine.py:820-824 | one bar over the cap can change a zone: 61 bars, a cap of 60, both builds succeed and a zone has been resized |
| LocationScoring.SelectAnchor | core/location_engine.py:1251-1290 | the loop selects the anchor that AnchorOf names |
| LocationScoring.SelectObstacle | core/location_engine.py:1293-1368 | the loop selects the obstacle that ObstacleOf names, conflicts first |
| LocationSelection.AnchorMeaning | core/location_engine.py:1251-1290 | the anchor is an active, confirmed zone to lean on that no other such zone precedes by distance, width, recency and id; none iff there is no such zone |
| LocationSelection.ObstacleMeaning | core/location_engine.py:1293-1368 | conflict iff the price is inside a live opposing zone; else the first live zone ahead by the same order, with its clearance; none iff neither exists |
| LocationSelection.BestIsFirst | core/location_engine.py:1288-1290 | of candidates that no other precedes the first is taken |
| LocationChoice.AnchorOnPrices | core/location_engine.py:1251-1290 | the anchor in zone fields: who can be leant on, and against every other such zone strictly nearer, or as near and narrower, or equal in both and confirmed later, or then least by id |
| LocationChoice.ObstacleOnPrices | core/location_engine.py:1293-1368 | conflict, obstacle and clearance in zone fields, by the same order |
| LocationChoice.GapIsLeast | core/location_engine.py:1236-1248 | the distance to a zone is that to its nearest price |
| LocationSelection.ScoreIgnoresZoneOrder | core/location_engine.py:1251-1368 | without id conflicts, anchor, obstacle and score depend only on which zones the context holds |
| LocationSymmetry.ScoreMirrors | core/location_engine.py:1488-1606 | reflecting price and zones and exchanging roles makes the other side score the same in raw, status, reasons, distances, factors and zone ids |
| LocationScoreMeaning.ProximityMeaning | core/location_engine.py:1565-1576 | proximity is 1 only at the anchor and 0 exactly from the configured number of ATRs on |
| LocationScoreMeaning.ClearanceMeaning | core/location_engine.py:1528-1540 | clearance is 1 exactly from the configured number of ATRs on and 0 only without any |
| LocationScoreMeaning.ProximityIsShareLeft | core/location_engine.py:1565-1576 | between its ends proximity is the share of the reach that the distance leaves |
| LocationScoreMeaning.ClearanceIsShareFilled | core/location_engine.py:1528-1540 | between its ends clearance is the share of the room that it fills |
| LocationScoreMeaning.ScoreOnPrices | core/location_engine.py:1488-1606 | the score on prices: raw is 25 times those two shares rounded half-up, with every reported figure and reason |
| LocationScoreMeaning.UnscoredOnPrices | core/location_engine.py:1504-1563 | what is reported for a side in conflict or without an anchor |
| LocationScoreMeaning.ScoreCarriesContext | core/location_engine.py:1609-1646 | every result repeats its context; without a current ATR it carries nothing else |
| LocationScoreMeaning.StatusMeaning | core/location_engine.py:1488-1606 | each status holds exactly under its condition on which zones contain the price, can be leant on, or lie ahead; only scored statuses have a raw above zero |
| LocationScoreMeaning.TooFarMeaning | core/location_engine.py:1565-1585 | the too-far reason is given exactly when a side is scored and every anchor is out of reach, and the raw is then zero |
| LocationMonotonicity.RawIsNearest | core/location_engine.py:1675-1681 | the raw score of a value in [0, 25] is the nearest integer, ties upwards |
| LocationMonotonicity.ScoreIsValid | core/location_engine.py:1488-1646 | scoring fails only without a current ATR, and strict or safe it yields a result that passes its own validation |
| LocationMonotonicity.RawIsWithinHalf | core/location_engine.py:1488-1606 | raw lies in 0..25 and, with an anchor and no conflict, within one half of 25 times proximity times clearance |
| LocationMonotonicity.MoreAnchorsNeverLower | core/location_engine.py:1251-1290 | further zones of the anchor role never lower a side's raw score |
| LocationMonotonicity.MoreObstaclesNeverRaise | core/location_engine.py:1293-1368 | once an obstacle exists, further opposing zones never raise the raw score |
| LocationMonotonicity.FurtherObstaclesRaiseOnlyIfFar | core/location_engine.py:1488-1606 | whatever opposing zones are added, the raw score rises only if both sides score, the addition is the first obstacle, the anchor is in reach and the clearance is worth more than the unknown-clearance factor |
| LocationMonotonicity.FurtherObstaclesRaiseExactIff | core/location_engine.py:1528-1577 | and the score before rounding rises exactly in that case |
| LocationMonotonicity.FirstObstacleCanRaise | core/location_engine.py:1528-1540 | a concrete context whose raw score rises from 13 to 25 when a resistance is added |
| Candles.MergeCandles | core/market_models.py:205-217 | the two filling loops and the sorted read-out compute the merge |
| Candles.MergeMeaning | core/market_models.py:205-217 | the merge is strictly time-ordered, has exactly the union of the times, and the newest sample of each time wins |
| Candles.ListingIsUnique | core/market_models.py:205-217 | a time-keyed dictionary has exactly one ordered listing |
| Candles.MergeIsAssociative | core/market_models.py:205-217 | merging is associative |
| Candles.MergeIsIdempotent | core/market_models.py:205-217 | merging again what a list already holds only puts it in canonical form |
| Candles.ClosedCandlesAtCutoff | core/market_models.py:174-202 | the loop keeps the candles whose close is at or before the cutoff |
| Candles.MergeCommutesWithClosed | core/market_models.py:174-217 | filtering the merge is merging the filtered lists |
| Candles.ValidateSmcCandles | core/market_models.py:87-142 | the loop reports the issues of a list in order |
| Candles.IssuesAreExact | core/market_models.py:72-142 | an issue is reported iff the list has that defect at that place |
| Candles.NoIssuesIffValid | core/market_models.py:72-142 | no issues iff strictly ordered with valid OHLC throughout |
| Candles.ValidOhlcMeaning | core/market_models.py:72-84 | OHLC is valid iff the high is the greatest and the low the least of the four prices |
| Candles.ClosedMeaning | core/market_models.py:157-202 | the filter keeps a candle iff a whole bar fits between its open time and the cutoff |
| Candles.MergeOfValidIsValid | core/market_models.py:87-217 | merging lists of valid candles gives a list the validator accepts |
| Drawdown.TrackDrawdown | controllers/scanner_controller.py:365-380 | the single-pass peak tracker returns 1 iff some prefix equity is non-positive, else the largest relative fall between any two points; always in [0, 1] |
| Drawdown.ComputeRecentDrawdownRatio | controllers/scanner_controller.py:317-380 | None iff the journal is no list or some row is unreadable; else that drawdown of the window in time order |
| Drawdown.EquityMeaning | controllers/scanner_controller.py:365-372 | equity starts at one and each trade changes it by the risked share of it times the trade's R result |
| Drawdown.TotalLossOnEquity | controllers/scanner_controller.py:372-374 | the ratio is one if equity is ever used up, and below one otherwise |
| Drawdown.RatioBoundsEquity | controllers/scanner_controller.py:375-380 | short of that, no equity is below the share the ratio leaves of an earlier one |
| Drawdown.RatioIsReached | controllers/scanner_controller.py:375-380 | and one equity is exactly that share of an earlier one, so no smaller ratio would do |
| Drawdown.LaterTradeNeverLowers | controllers/scanner_controller.py:365-380 | one more trade, no earlier than the others in the window, never lowers the ratio |
| Drawdown.RatioIgnoresInputOrder | controllers/scanner_controller.py:344-380 | with distinct close times the ratio does not depend on the order of the journal |
| Drawdown.TiesFollowInputOrder | controllers/scanner_controller.py:365-380 | with tied close times it can: two orders of the same trades with ratios 0.625 and 0.75 |
| LexiconScan.ScanLexicon | core/macro_tiers.py:486-511 | the nested loops choose exactly the greedy longest-first selection and sum its signed weights |
| LexiconScan.ScanTerm | core/macro_tiers.py:490-511 | the inner loop decides every occurrence of one term, from left to right |
| LexiconScan.ChosenAreDisjoint | core/macro_tiers.py:490-499 | accepted spans are pairwise disjoint and spell their terms |
| LexiconScan.EveryOccurrenceIsCovered | core/macro_tiers.py:486-511 | every occurrence of any term is accepted or overlaps an accepted span at least as long |
| LexiconScan.SelectionIsUnique | core/macro_tiers.py:486-511 | text and lexicon determine the accepted spans and their order |
| LexiconScan.SentimentMeaning | core/macro_tiers.py:503-507 | the sentiment is the weight of the plain phrases less that of the negated ones |

## Left out

- Floating-point noise: all arithmetic is exact. NaN and infinities, Decimal context precision, `str(float)` conversion and the ulp budget of the zone width check are not modelled; the width check is an exact comparison.
- Texts: reasons and last errors of the order machine are enumerations, one constructor per message. The text of a broker message is kept, an empty one selects the default, as in the source.
- Time parsing and time zones: times are integers; naive or unparseable timestamps and their issue codes are not modelled.
- Loosely typed inputs: values of the wrong Python type, candles given as mappings and candle volume checks. An order side is `buy`, `sell` or invalid.
- Zone ids: the text `role:open-time` is kept as its two parts, ordered as the texts are for times written in one UTC format.
- OrderBroker.BreakevenIsNeverLost: covers runs without hand edits of the stop, with offset and price constraints fixed over the run. Prices with more than eleven digits, whose quantum the tolerance of at least 1e-12 no longer resolves, get a margin of two tolerances.
- OrderDemotion.DemotionFiresIff: covers prices of at most eleven digits, for the same reason.
- OrderBroker.EveryStateKeepsInvariant: the broker places a stop at most half a step from the requested price, as far as the gateway takes a placement for the one requested; a request's fate is settled before the next fresh snapshot; a CONFIRMED reply carries the broker's real stop and take-profit; `position_exists` is reported false only of a position that is gone. Requests are guarded, as the order manager always has them (`services/order_management_service.py:795-801`).
- OrderGateway.Rule: the tick size and digits of the symbol are those of the machine's constraints; checking and executing a request is one atomic step. The account and symbol checks, the broker's own stop-distance check and send errors only drop a request.
- OrderRetry.RetriesAreBounded: covers runs with fresh quotes of an unchanged position, unchanged settings and retryable errors only. With stale looks the bound is false at break-even (OrderRetryStale.RetriesAreUnbounded) and true short of it.
- LocationRepainting.ZonesAreNeverRepainted: holds while the bar cap is not reached. Beyond it the claim is false (LocationCapExample.CapCanRepaint); what holds is stated by LocationBarCap.CapKeepsSwings, LocationBarCap.ZonesKeptIffSizingAgrees and LocationBarCap.NotRepaintedIff.
- LexiconScan.ScanLexicon: the negation window around an accepted phrase is a parameter, a predicate on the span; terms are non-empty, as all entries of the lexicon are.
- The location engine's serialization, the H1 reference selection and the resolution of configuration overrides: field-by-field code.
- MT5, database, network, Qt threads, AI calls, messaging and persistence: input and output around the modelled decisions.
- Decision tables and weighted sums in other core modules: their claims follow branch by branch.
