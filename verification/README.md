# Verified model of the snapshot engine

A Dafny 4.11 model of a deterministic market-snapshot engine: raw order-book
snapshots are validated, folded into rolling statistics, classified into a
regime, gated, scored, and drive a long/short trading state machine, while a
feed thread may announce gaps and hand snapshots over through a bounded queue.
`dafny verify dfyconfig.toml` checks everything.

Components that update their fields are classes whose methods are proved against
pure step functions; what the engine promises over whole runs is proved as
lemmas about those functions. Prices and statistics are exact reals, integer
paise stay integers, Python's `round` is half-to-even, and the exponential decay
is a function parameter with the laws of an exponential. The range checks of
`config.py` are the preconditions.

| file | component |
|---|---|
| `Prelude.dfy`, `Rounding.dfy`, `MarketRecords.dfy` | arithmetic vocabulary, tick grid, market records |
| `RingBuffer.dfy`, `MonotonicWindow.dfy`, `RollingMean.dfy`, `RollingVariance.dfy`, `TimeAwareEma.dfy` | incremental buffers |
| `SharedStatistics.dfy` | mid-price statistics and the efficiency ratio |
| `SnapshotValidation.dfy`, `Scenarios.dfy` | validator, deterministic generator, and the theorem relating them |
| `ReceivableBooks.dfy` | concrete books the default validator accepts, for exhibiting failures |
| `RefillProxy.dfy` | refill episodes, volume budget, soundness of rewards |
| `MarketQuality.dfy`, `Regime.dfy`, `Composite.dfy` | gate, regime hysteresis, composite score |
| `Execution.dfy` | ladder walk, quotes, costs, stops |
| `TradingMachine.dfy`, `TradingRuns.dfy` | the trading state machine and its runs |
| `HandOffQueue.dfy` | the drop-oldest queue as interleaved steps |
| `GapProtocol.dfy`, `GapPasses.dfy` | the gap flag between two threads as interleaved steps, and the engine as one of them |
| `Engine.dfy`, `EngineRuns.dfy`, `EngineStages.dfy` | the engine of one instrument, its runs, and what each stage is shown in them |

## Where code and documentation disagree

The model follows the code; the members named below prove what it does.

- A gap restart clears the validator after it has accepted the post-gap snapshot
  (`engine/quant_engine.py:462-470`). The next snapshot is "first" again: one price
  step and one volume increment are lost, and even an earlier timestamp passes
  (`EngineRuns.OrderIsCheckedExactlyWhen`, `EngineRuns.SecondSnapshotIsFirstAgain`,
  `EngineRuns.SecondSnapshotClaimsNothing`).
  After that the clamp of the efficiency ratio can bite: on engine runs exactly when
  `EngineRuns.ClampAfterRestartExactlyWhen` says, on mid paths and for every lookback
  under the condition of `SharedStatisticsModel.ClampInertAfterGap`.
- A gap is said to be applied at the next usable snapshot. After a stale rejection
  there is none unless time runs backwards (`EngineRuns.StaleForever`); exactly when
  the engine resumes is `EngineRuns.ResumesExactlyWhen`.
- Scaling a weight table is said to change nothing (`engine/composite.py:16-22`). It does
  when it moves the contributing weight across the guard of `safe_div`
  (`Composite.ScalingIsInvisibleExactlyWhen`, exhibited by `Composite.TinyWeightsAreVisible`).
- A refill reward is meant as evidence that quantity returned. With
  recovery_fraction <= 1 - consumption_fraction, as in the defaults, it is not
  (`RefillProxy.RefillProvesRiseExactlyWhen`, `RefillProxy.DefaultsRewardStandingStill`).
- `drain` can return with a snapshot still queued although no put overlapped `close`
  (`HandOffQueue.DrainDeliversAllExactlyWhen`); a put that does overlap can lose the
  newest snapshot (`HandOffQueue.NewestRefusedExactlyWhen`), and a sentinel pushed out
  counts as a dropped snapshot (`HandOffQueue.CounterExceedsDropsExactlyWhen`).
- `start_price_paise` is documented as the initial best bid; the first event already
  moves it in some scenarios (`Scenarios.StartPriceIsFirstBid`).
- The score must "exceed" the entry threshold (`engine/state_machine.py:10`); the code
  accepts equality (`TradingRuns.EntryAtEquality`).
- `accepted_count` is documented as counting since the last reset
  (`engine/validator.py:100-102`); `reset` does not clear it
  (`SnapshotValidation.SnapshotValidator.Reset`).
- `ema_alpha` is documented to keep a duplicate timestamp from producing a zero weight
  (`utils/math_utils.py:121-123`); it yields exactly zero there and
  nowhere else (`TimeAwareEmas.AlphaIsZeroExactlyWhen`).
- Re-arming is described as the score crossing zero (`engine/state_machine.py:16-17`). A score
  of zero, which is also what an unusable composite counts as, is enough
  (`TradingRuns.RearmedExactlyWhen`, exhibited by `TradingRuns.ReentryWithoutCrossing`).
- The stop of a position can be hit by the very book it is opened on
  (`Execution.BornStoppedExactlyWhen`, `Execution.BornStoppedOnGrid`), so that the next
  unchanged snapshot exits it. With the defaults this happens to every position opened on
  a one-tick spread from 750.00 up, the scenarios' start price of 800.00 included
  (`Execution.ShippedStopAtBirthExactlyWhen`, `Execution.ShippedStopIsReachable`): three
  basis points of the price are then worth nearly the whole stop distance.
- A signal spread limit of one tick or less passes the range checks
  (`config.py:225-252`), but then every evaluation of the market quality raises a
  ValueError (`MarketQuality.Evaluate`).

## Model

| member | source | states |
|---|---|---|
| SymbolEngines.SymbolEngine.Process | snapshot_quant_v4/engine/quant_engine.py:277-388 | on real component objects, one call has exactly the effect of the pure stage pipeline: judge, note a gap, recover, count, regime, gate, score, machine; a rejected snapshot moves only counters and the gap flag |
| SymbolEngines.SymbolEngine.NotifyGap | snapshot_quant_v4/engine/quant_engine.py:428-445 | announcing a gap raises the flag, stamps the time and counts it, nothing else |
| SymbolEngines.SymbolEngine.ConsumePendingGap | snapshot_quant_v4/engine/quant_engine.py:447-460 | a pending gap closes the position and leaves every estimator, the validator included, as newly created; without one nothing changes |
| SymbolEngines.SymbolEngine.ResetEstimators | snapshot_quant_v4/engine/quant_engine.py:462-470 | statistics, regime, smoother and validator history all return to their initial state |
| EngineStages.MachineIsShown | snapshot_quant_v4/engine/quant_engine.py:315-347 | in every engine run an accepted snapshot takes the machine, a new one after a restart, through one step on an input spelled out from the run: the score of the report, the verdict of the gate on the market rebuilt from the message, the count since the restart and the time since the latest gap, and the readings |
| EngineStages.EntryNeedsOpenGate | snapshot_quant_v4/engine/quant_engine.py:325-347 | in every engine run a watch or an entry implies that no reason at all blocks that market, that the score of the report is usable, points that way and reaches the threshold of the snapshot, and for an entry that its confidence suffices, the traded price does not object and costs are cleared |
| EngineStages.GroundIsEnough | snapshot_quant_v4/engine/state_machine.py:411-543 | and nothing more is needed: from NEUTRAL a watch is armed exactly on such ground unless the re-arm block forbids it, and a watch lacking one confirmation enters exactly on ground for an entry unless it has expired |
| EngineStages.SurvivesOnGround | snapshot_quant_v4/engine/state_machine.py:357-397 | in every engine run a held position survives a snapshot if and only if its stop is unhit and it is inside its minimum hold or neither target, maximum hold, reversed score, lost confidence nor a critical condition of that market speaks against it |
| EngineStages.DetectorIsShown | snapshot_quant_v4/engine/quant_engine.py:310-322 | in every engine run the detector takes one hysteresis step on the label of a reading spelled out from the run: count and efficiency since the restart, trend, volatility and the sign of the momentum feature with its dead band; the report carries the label held then |
| EngineStages.ScorerIsShown | snapshot_quant_v4/engine/quant_engine.py:331-342 | in every engine run the snapshot is scored with the table of the regime reported with it, over the exchange time since the snapshot it continues, by the smoother of the run since the restart |
| EngineStages.CountersMove | snapshot_quant_v4/engine/quant_engine.py:277-347 | what every event adds to each counter, and what snapshot, index and forced close each report carries |
| EngineRuns.MachineFollows | snapshot_quant_v4/engine/quant_engine.py:287-347 | in every engine run the machine inside goes through exactly the run of the machine model on the events the engine feeds it, so all machine-run theorems hold in the engine |
| EngineRuns.AcceptedStep | snapshot_quant_v4/engine/quant_engine.py:301-310 | an accepted snapshot never leaves a gap pending; it continues the statistics unless it restarted the engine, in which case it also leaves the validator without history |
| EngineRuns.RejectedStep | snapshot_quant_v4/engine/quant_engine.py:290-299 | a rejected snapshot touches no estimator, no position and no history |
| EngineRuns.EntryNeedsWarmup | snapshot_quant_v4/engine/quant_engine.py:301-347 | if the estimators were last reset at accepted snapshot j, any entry has index at least j + warmup_snapshots + entry_confirmations |
| EngineRuns.EngineEntryDiscipline | snapshot_quant_v4/engine/state_machine.py:411-543 | in every engine run an entry ends an unbroken, unexpired watch of its direction whose last entry_confirmations snapshots met every entry condition, and at least 1 + warmup_snapshots + entry_confirmations snapshots were accepted since the last reset |
| EngineRuns.AlwaysWarmedUp | snapshot_quant_v4/engine/quality.py:80-81 | invariant of every run: leaving WARMUP takes the whole warmup, arming a watch one snapshot more, each confirmation one more |
| EngineRuns.ResidueNeverOpposes | snapshot_quant_v4/engine/quant_engine.py:313-321 | a momentum within the rounding dead band never makes the proposed regime a pullback |
| EngineRuns.AcceptedInOrder | snapshot_quant_v4/engine/validator.py:270-302 | accepted timestamps and volumes never run backwards as long as no snapshot in between restarted the engine |
| EngineRuns.OrderIsCheckedExactlyWhen | snapshot_quant_v4/engine/quant_engine.py:462-470 | the snapshot after an accepted one is certain not to predate it if and only if the accepted one did not restart the engine |
| EngineRuns.SecondSnapshotIsFirstAgain | snapshot_quant_v4/engine/quant_engine.py:462-470 | after every restart the history is empty at exactly the second accepted snapshot, which opens a sequence again, so one price step is lost |
| EngineRuns.SecondSnapshotClaimsNothing | snapshot_quant_v4/engine/validator.py:360-413 | the second snapshot accepted after a restart reports isFirst, an interval of zero and a volume increment of zero, whatever passed since the first |
| EngineRuns.FrozenUntilContinued | snapshot_quant_v4/engine/validator.py:403-413 | while nothing continues the accepted history nothing at all is accepted: position, estimators and resets stay as they are and a pending gap stays pending |
| EngineRuns.ResumesExactlyWhen | snapshot_quant_v4/engine/validator.py:270-302 | on any continuation something is accepted if and only if some snapshot on it has a sound book, continues the current history in time and volume and is no duplicate |
| EngineRuns.StaleForever | snapshot_quant_v4/engine/quant_engine.py:294-299 | after a STALE_TIMESTAMP rejection, as long as time does not run backwards, nothing is ever accepted again and the gap the rejection announced is never served |
| EngineRuns.SilenceIsStale | snapshot_quant_v4/engine/validator.py:283-292 | a sound book is refused as stale if and only if it comes more than max_staleness_ms after the last accepted one, so any such silence starts the freeze |
| EngineRuns.BrokenOrderIsNoted | snapshot_quant_v4/engine/quant_engine.py:290-299 | a sound book that breaks the order of time or volume is never accepted and raises the gap flag, stamps and counts a gap there and then; no other rejection does |
| EngineRuns.ScoresStayInUnit | snapshot_quant_v4/engine/composite.py:144-146 | in every engine run with feature values in [-1, 1] the smoother never leaves [-1, 1], so the clamp of the smoothed score is inert |
| EngineRuns.MirrorRun | snapshot_quant_v4/engine/quant_engine.py:310-347 | negating all feature values and the trend turns every engine run into the run with long and short, their watches and exits exchanged and scores negated; regimes, gates, counters and resets are unchanged |
| GapProtocol.NeverForgotten | snapshot_quant_v4/engine/quant_engine.py:428-460 | at every interleaving point an announced gap is already served, still flagged, or its recovery is under way, also when the flag is overwritten or cleared meanwhile |
| GapProtocol.EveryGapIsServed | snapshot_quant_v4/engine/quant_engine.py:447-470 | an announcement made anywhere before the flag is read is followed by force_flat and then the estimator reset before that snapshot is evaluated |
| GapProtocol.NextAcceptedSnapshotServes | snapshot_quant_v4/engine/quant_engine.py:287-304 | no later than the evaluation of the next accepted snapshot, every announced gap has been served |
| GapProtocol.EveryRecoveryHasACause | snapshot_quant_v4/engine/quant_engine.py:453-457 | every recovery is caused by an announcement made since the one before |
| GapPasses.PassIsProcess | snapshot_quant_v4/engine/quant_engine.py:277-388 | what the steps of one uninterrupted pass of the protocol do to an engine, one after the other, is exactly what one call of the engine does |
| GapPasses.EngineFollowsProtocol | snapshot_quant_v4/engine/quant_engine.py:428-470 | every engine run is a run of the protocol with the same flag after every event, so the protocol theorems hold in the engine |
| TradingMachine.TradingStateMachine.Update | snapshot_quant_v4/engine/state_machine.py:177-231 | the in-place update with all its handlers equals the pure step for every state and input |
| TradingMachine.TradingStateMachine.ForceFlat | snapshot_quant_v4/engine/state_machine.py:233-276 | from any state: WARMUP, no position, all counters cleared, an open position marked once more |
| TradingRuns.SurvivesExactlyWhen | snapshot_quant_v4/engine/state_machine.py:357-397 | in every run a held position survives a snapshot if and only if its stop is unhit and it is inside its minimum hold or nothing else speaks against it; otherwise it is exited and reported |
| TradingRuns.ExitReasonsExactlyWhen | snapshot_quant_v4/engine/state_machine.py:357-397 | in every run: an exit is reported as a stop if and only if the stop is hit, every other exit comes at least min_hold_ms after entry, its reason is true and none listed before it is |
| TradingRuns.AlwaysConsistent | snapshot_quant_v4/engine/state_machine.py:278-300 | in every run the state is LONG or SHORT exactly when an open position of that direction exists (the defensive branch is dead), a watch carries its own sign (the sign correction at 491-493 is dead), confirmations stay below the required number |
| TradingRuns.ReportsChain | snapshot_quant_v4/engine/state_machine.py:607-648 | each report starts in the state the previous one ended in and shows the state and position the machine is left in |
| TradingRuns.Ledger | snapshot_quant_v4/engine/state_machine.py:233-397 | entries = exits + forced closes + position still open, after every prefix of every run |
| TradingRuns.HeldPositionsAreWithinLimits | snapshot_quant_v4/engine/state_machine.py:357-397 | a position kept through a snapshot had its stop unhit and has been held for less than max_hold_ms |
| TradingRuns.WatchHasBegun | snapshot_quant_v4/engine/state_machine.py:411-478 | a machine found watching armed that watch at some earlier event and has satisfied the watch conditions without expiry ever since |
| TradingRuns.EntryDiscipline | snapshot_quant_v4/engine/state_machine.py:411-589 | every entry: armed at least entry_confirmations events before, same unexpired watch throughout, the last entry_confirmations snapshots each passing score, confidence, traded-price and cost conditions |
| TradingRuns.EntersExactlyWhen | snapshot_quant_v4/engine/state_machine.py:411-589 | a run enters direction d at an event if and only if some earlier event armed a watch of d that was kept up without expiry until then, and it is the first event after enough others at which entry_confirmations confirming snapshots have come in a row |
| TradingRuns.NoEntryDuringCooldown | snapshot_quant_v4/engine/state_machine.py:325-335 | with a clock that does not run backwards, no entry comes earlier than cooldown_ms after any exit since the last reset |
| TradingRuns.CoolsDownExactlyWhile | snapshot_quant_v4/engine/state_machine.py:302-335 | in every run an exit is followed by EXIT and COOLDOWN states exactly until the first snapshot at least cooldown_ms after it, and that one leaves NEUTRAL |
| TradingRuns.WarmsUpExactlyWhile | snapshot_quant_v4/engine/state_machine.py:213-219 | a new or reset machine is in WARMUP exactly until the first snapshot whose reasons do not contain the warmup, and that one leaves NEUTRAL |
| TradingRuns.FlatMovesExactlyWhen | snapshot_quant_v4/engine/state_machine.py:399-543 | from NEUTRAL or a watch, the state after a snapshot is a watch of d if and only if one armed now or earlier has been kept up without expiry and nothing was entered, LONG or SHORT if and only if entered that way, otherwise NEUTRAL |
| TradingRuns.PositionHasBegun | snapshot_quant_v4/engine/state_machine.py:548-589 | every open position goes back to an entry without reset since, made at its entry time with the quantity filled then or else the configured one, and is unchanged since |
| TradingRuns.RearmedExactlyWhen | snapshot_quant_v4/engine/state_machine.py:592-603 | in every run the re-arm block of the last exit is lifted if and only if some score since, zero and an unusable composite included, has not had the sign of its direction |
| TradingRuns.ArmsAgainExactlyWhen | snapshot_quant_v4/engine/state_machine.py:411-478 | after an exit a flat machine arms on exactly the watchable signals, one for the same direction only after such a score when re-arming is required |
| TradingRuns.ReentryWithoutCrossing | snapshot_quant_v4/engine/state_machine.py:592-603 | under every configuration, one unusable or zero composite lets a run enter the same direction again although every other score on it is positive |
| TradingRuns.RearmSeparatesEntries | snapshot_quant_v4/engine/state_machine.py:440-444 | two entries in one direction are separated by the exit of the first and, later than that exit, by a snapshot whose effective score is not of that sign |
| TradingRuns.MirrorRun | snapshot_quant_v4/engine/state_machine.py:177-603 | negated scores and traded-price readings give the run with long and short exchanged, report by report |
| TradingRuns.MirrorExit | snapshot_quant_v4/engine/state_machine.py:357-397 | exit rules are the same for a mirrored position on mirrored input |
| TradingRuns.EntryAtEquality | snapshot_quant_v4/engine/state_machine.py:512-543 | under every configuration some run enters although no score on it ever exceeds the entry threshold |
| RegimeDetection.RegimeDetector.ApplyHysteresis | snapshot_quant_v4/engine/regime.py:161-185 | the in-place counters follow the pure hysteresis step |
| RegimeDetection.CountersAreExact | snapshot_quant_v4/engine/regime.py:161-185 | in every run dwell counts the snapshots since the last change and the candidate count the trailing equal proposals against the held label |
| RegimeDetection.ChangesExactlyWhen | snapshot_quant_v4/engine/regime.py:161-185 | without counters: the label changes if and only if the proposal is new, was made confirm_snapshots times in a row, and the old label is UNKNOWN or was reported for min_dwell_snapshots |
| RegimeDetection.LabelsLast | snapshot_quant_v4/engine/regime.py:161-185 | two changes are at least confirm_snapshots apart, and at least min_dwell_snapshots apart when the label between them is known |
| RegimeDetection.MirrorClassify | snapshot_quant_v4/engine/regime.py:123-159 | the label does not change when trend and momentum are both negated |
| RegimeDetection.LabelsExactlyWhen | snapshot_quant_v4/engine/regime.py:123-159 | an exact condition for each of the five labels, without reference to the tests before it |
| Composite.CompositeScorer.Score | snapshot_quant_v4/engine/composite.py:98-171 | weights, caps, accumulation, validity test and smoothing in place equal the pure assessment |
| Composite.CompositeScorer.ApplyCollinearityCaps | snapshot_quant_v4/engine/composite.py:195-209 | the in-place scaling equals the pure capping, group by group |
| Composite.CapsOnlyLower | snapshot_quant_v4/engine/composite.py:195-209 | no cap, and no sequence of caps, raises a weight or makes it negative |
| Composite.EveryGroupEndsCapped | snapshot_quant_v4/engine/composite.py:195-209 | every group with at least two present members ends within cap times the total before capping, also when groups overlap or repeat a name |
| Composite.CapIsTight | snapshot_quant_v4/engine/composite.py:199-209 | a group of distinct features is cut to its allowance exactly, with the proportions inside it kept and nothing outside it moved |
| Composite.ScoreIsWeightedMean | snapshot_quant_v4/engine/composite.py:112-146 | a valid score lies between any bounds of the contributing values; with values in [-1, 1] both clamps are inert and the smoothed score stays in [-1, 1] |
| Composite.ScoreIsTheMean | snapshot_quant_v4/engine/composite.py:112-171 | from the features alone: score times the sum of weight times confidence over the contributing voters equals the sum of their shares, confidence times the sum of their weights equals the sum of their masses; valid if and only if enough contribute with enough confidence, and then, and only then, the smoother blends the score in by the factor of the interval |
| Composite.UngroupedKeepTheirWeight | snapshot_quant_v4/engine/composite.py:179-209 | a voter in no capped group goes into the score with exactly its table weight |
| Composite.MassIsSum | snapshot_quant_v4/engine/composite.py:199-203 | the joint weight a cap is applied to is the sum of the weights |
| Composite.ConfidenceIsWeightedMean | snapshot_quant_v4/engine/composite.py:131-134 | the aggregate confidence lies between any bounds of the confidences of the contributing features, and reads zero when their weight is below the division guard |
| Composite.VotersExactly | snapshot_quant_v4/engine/composite.py:179-193 | a feature enters the weights if and only if it is listed, valid, directional and positively weighted |
| Composite.OthersHaveNoInfluence | snapshot_quant_v4/engine/composite.py:32-34 | invalid, non-directional and unweighted features are excluded, not zeroed: nothing about them changes the assessment |
| Composite.ScalingIsInvisibleExactlyWhen | snapshot_quant_v4/engine/composite.py:131-143 | multiplying a weight table by k > 0 leaves score, smoothed score, confidence, count and validity alone if and only if nothing contributes or the contributing weight stays on its side of the division guard |
| Composite.TinyWeightsAreVisible | snapshot_quant_v4/engine/composite.py:131-143 | any weight below the guard that k lifts over it exhibits the failing side: one feature, invalid under one table and valid under the scaled one, configuration and both tables within the range checks |
| Composite.MirrorAssess | snapshot_quant_v4/engine/composite.py:98-171 | negating feature values negates score and smoothed score and changes nothing else |
| SnapshotValidation.FaultFree | snapshot_quant_v4/engine/validator.py:217-268 | the neighbour-by-neighbour ladder scan finds nothing if and only if every level is sound and the ladder is strictly sorted as a whole |
| SnapshotValidation.SoundBookIsFaultFree | snapshot_quant_v4/engine/validator.py:124-200 | the ordered list of structural checks passes if and only if the book meets the order-free definition of a sound book |
| SnapshotValidation.AcceptedExactlyWhen | snapshot_quant_v4/engine/validator.py:115-213 | a snapshot is accepted if and only if its book is sound and, given a history, it is not older, not staler than the limit, loses no volume and is no duplicate |
| SnapshotValidation.RejectedExactlyWhen | snapshot_quant_v4/engine/validator.py:115-302 | every temporal and duplicate rejection by its own condition, free of the order of the checks; a rejection announces a gap if and only if a sound book with a history runs backwards in time, is later than the limit, or loses volume |
| SnapshotValidation.FaultIsWorst | snapshot_quant_v4/engine/validator.py:124-268 | a reported structural fault is present in the book, and no more severe one is |
| SnapshotValidation.FlaggedExactlyWhen | snapshot_quant_v4/engine/validator.py:304-413 | an accepted snapshot is flagged as a gap if and only if there was a silence, a jump of the mid or a sequence regression; flagged it claims neither time nor volume, otherwise all that passed since the last accepted one |
| SnapshotValidation.RepeatsExactlyWhen | snapshot_quant_v4/engine/validator.py:340-358 | right after a snapshot a sound and timely one is refused as a duplicate if and only if it agrees in time, touch prices and sizes, volume and last trade |
| SnapshotValidation.SnapshotValidator.Validate | snapshot_quant_v4/engine/validator.py:115-213 | verdict and new history of the in-place validator; history moves on acceptance only |
| SnapshotValidation.SnapshotValidator.ScanLadder | snapshot_quant_v4/engine/validator.py:217-244 | the loop reports the first fault of one ladder |
| SnapshotValidation.AcceptedInOrder | snapshot_quant_v4/engine/validator.py:270-302 | between resets accepted timestamps and volumes never move backwards, over any run with rejections in between |
| SnapshotValidation.VolumeTelescopes | snapshot_quant_v4/engine/validator.py:360-413 | reported volume increments never exceed, and without a gap equal, the growth of the cumulative volume |
| SnapshotValidation.TimeTelescopes | snapshot_quant_v4/engine/validator.py:360-413 | reported intervals never exceed, and without a gap equal, the exchange time that passed |
| SnapshotValidation.SnapshotValidator.Reset | snapshot_quant_v4/engine/validator.py:100-111 | reset forgets the last snapshot and keeps the accepted count |
| HandOffQueue.SnapshotQueue.Put | snapshot_quant_v4/adapter/queueing.py:64-103 | alone, put keeps the newest maxsize entries and counts the one it pushed out; closed, it does nothing |
| HandOffQueue.SnapshotQueue.Close | snapshot_quant_v4/adapter/queueing.py:111-126 | close drops nothing that was accepted |
| HandOffQueue.SnapshotQueue.Drain | snapshot_quant_v4/adapter/queueing.py:128-152 | alone after close, drain hands over every queued snapshot in order |
| HandOffQueue.PutAlone | snapshot_quant_v4/adapter/queueing.py:64-103 | the atomic steps of one uninterrupted put have the effect of the whole method |
| HandOffQueue.Conservation | snapshot_quant_v4/adapter/queueing.py:64-126 | at every interleaving of any number of producers: accepted = delivered + queued + dropped + in flight |
| HandOffQueue.FirstInFirstOut | snapshot_quant_v4/adapter/queueing.py:64-152 | the queue never exceeds maxsize; what was taken and what is queued are, in order, exactly what was put in, and deliveries are the undropped part of it in order |
| HandOffQueue.DroppedExactlyWhen | snapshot_quant_v4/adapter/queueing.py:91-103 | at every interleaving of any number of producers, a snapshot that has left the queue was not delivered if and only if some put made room with it |
| HandOffQueue.OnlyTheOldestIsDropped | snapshot_quant_v4/adapter/queueing.py:76-103 | one producer whose puts do not overlap close never has its newest snapshot refused |
| HandOffQueue.RefusedExactlyWhen | snapshot_quant_v4/adapter/queueing.py:76-103 | with any number of producers, the second try of a put is refused if and only if as many entries arrived since its first try as were taken |
| HandOffQueue.NewestRefusedExactlyWhen | snapshot_quant_v4/adapter/queueing.py:76-103 | a single producer loses its newest snapshot if and only if since its first try as many sentinels entered as entries were taken, at least one of each |
| HandOffQueue.CounterExceedsDropsExactlyWhen | snapshot_quant_v4/adapter/queueing.py:91-103 | between puts the drop counter exceeds the number of dropped snapshots if and only if some put made room by taking a sentinel |
| HandOffQueue.DrainDeliversAllExactlyWhen | snapshot_quant_v4/adapter/queueing.py:128-152 | if no put overlapped close, a drain that has returned has delivered every undropped snapshot if and only if none arrived between its last empty poll and its look at the closed flag |
| HandOffQueue.LateSnapshotIsStranded | snapshot_quant_v4/adapter/queueing.py:134-140 | for every maxsize a reachable run with no overlap ends with a snapshot left in the queue |
| HandOffQueue.OverlapRefusesTheNewest | snapshot_quant_v4/adapter/queueing.py:85-89 | for every maxsize a reachable overlap of put and close in which the newest snapshot is refused |
| HandOffQueue.PushedOutSentinelIsCounted | snapshot_quant_v4/adapter/queueing.py:91-103 | for every maxsize a reachable run in which the drop counter counts the sentinel |
| RefillProxy.RefillFeature.Compute | snapshot_quant_v4/features/refill.py:134-167 | episodes and both scores after a snapshot are those of the pure episode machine, side by side without interference |
| RefillProxy.RefillFeature.ProcessSide | snapshot_quant_v4/features/refill.py:179-248 | resolve or detect on one side; the other side is untouched |
| RefillProxy.EpisodesResolveOnce | snapshot_quant_v4/features/refill.py:179-248 | detections = refills + failures + episode in flight: no episode is resolved twice or lost |
| RefillProxy.OutcomeExactlyWhen | snapshot_quant_v4/features/refill.py:185-248 | in every run: an episode begins if and only if none is in flight, the touch last seen lost the fraction and enough was traded; it is refilled if and only if enough is back at its price, and fails if and only if nothing rests there or too little for longer than window_ms; what is remembered of it is stated |
| RefillProxy.ScoreMovesExactly | snapshot_quant_v4/features/refill.py:95-115 | in every run the score decays over the interval as far as it counts, a refill adds the part that is back, at most one, a failure takes failure_weight, nothing else changes it |
| RefillProxy.VolumeBudget | snapshot_quant_v4/features/refill.py:222-248 | per side, all detections together claim no more volume than was traded over the run |
| RefillProxy.VolumeBudgetOfFeed | snapshot_quant_v4/engine/validator.py:360-413 | the same budget on a raw feed through the validator: over a gap-free stretch the claims stay within the growth of the cumulative volume |
| RefillProxy.GapFreeFeedIsContinuous | snapshot_quant_v4/engine/validator.py:293-302 | a gap-free stretch of the validator delivers snapshots whose volume increments telescope |
| RefillProxy.ScoresBounded | snapshot_quant_v4/features/refill.py:95-115 | both scores stay within the score limit over every run |
| RefillProxy.NoConsumptionNoScore | snapshot_quant_v4/features/refill.py:222-248 | on runs where the previous touch never loses consumption_fraction of its size, no episode starts and both scores stay zero |
| RefillProxy.RefillProvesRiseExactlyWhen | snapshot_quant_v4/features/refill.py:196-220 | under every validator configuration that accepts some book: on all gap-free feeds through the validator every reward shows a level risen since its detection, if and only if recovery_fraction > 1 - consumption_fraction |
| RefillProxy.RewardProvesRise | snapshot_quant_v4/features/refill.py:196-220 | with recovery_fraction above 1 - consumption_fraction, every reward on every run is preceded by the detection of that episode, at which the level held strictly less |
| RefillProxy.DefaultsRewardStandingStill | snapshot_quant_v4/config.py:468-469 | the default fractions reward, on a feed the default validator accepts without a gap, a bid that fell from 100 to 60 and never rose |
| Scenarios.Snapshots | snapshot_quant_v4/adapter/scenarios.py:137-188 | the generator loop emits exactly the described source states: five-level ladders around the moved touch with their exact prices, sizes and order counts |
| Scenarios.Ladder | snapshot_quant_v4/adapter/scenarios.py:215-242 | five levels, one tick apart, each with the rounded size its pressure, depth and random variation give, never below one, and one order per 150 + 25k shares at level k |
| Scenarios.StreamIsAccepted | snapshot_quant_v4/adapter/scenarios.py:137-242 | every configuration that passes the guards and every random draw yields a stream that a matching validator accepts from first to last without a gap (spread limit 4 ticks, jump limit 8.5 ticks) |
| Scenarios.TrendsMoveOneTick | snapshot_quant_v4/adapter/scenarios.py:65-92 | UPWARD and DOWNWARD move exactly one tick per snapshot for the whole configured count: the guard keeps the price floor out of reach |
| Scenarios.NoiseReturns | snapshot_quant_v4/adapter/scenarios.py:190-213 | NOISE is directionless: away from the price floor every cycle of eight events ends at the price it began with |
| Scenarios.TrendsFavourTheirSide | snapshot_quant_v4/adapter/scenarios.py:215-242 | UPWARD shows at every level at least as much on the bid as on the ask, DOWNWARD the other way round |
| Scenarios.TrendIsShown | snapshot_quant_v4/adapter/scenarios.py:190-197 | every event of UPWARD and DOWNWARD: one tick of spread, one trade size of volume, the last trade at the touch being lifted or hit, and strictly more size behind the move |
| Scenarios.NoiseIsShown | snapshot_quant_v4/adapter/scenarios.py:198-203 | every event of NOISE has the spread of its place in the cycle and leans strictly the way its step goes, whatever the random sizes |
| Scenarios.RandomIsShown | snapshot_quant_v4/adapter/scenarios.py:204-213 | every event of RANDOM from its draws: spread, traded volume, and the pressure that sizes both ladders and places the last trade |
| Scenarios.SizesAreAsConfigured | snapshot_quant_v4/adapter/scenarios.py:215-242 | sizes and order counts are within one half of what base size, depth, pressure and variation make of them, and never nothing |
| Scenarios.StartPriceIsFirstBid | snapshot_quant_v4/adapter/scenarios.py:44-47 | exactly when the configured start price is the first best bid shown |
| Scenarios.BidOnGrid | snapshot_quant_v4/adapter/scenarios.py:137-188 | every generated best bid is on the tick grid and, once shown, above the floor |
| Scenarios.MidMoves | snapshot_quant_v4/adapter/scenarios.py:190-213 | consecutive mids differ by at most eight and a half ticks |
| MonotonicWindows.HeadIsExtremum | snapshot_quant_v4/buffers/monotonic_queue.py:67-91 | the head of a valid candidate deque is the extremum a rescan of the window finds |
| MonotonicWindows.OnePopExpires | snapshot_quant_v4/buffers/monotonic_queue.py:138-142 | one head pop is always enough to expire the sample that left the window |
| MonotonicWindows.AdmitKeepsCandidates | snapshot_quant_v4/buffers/monotonic_queue.py:121-137 | popping dominated tails and appending keeps a staircase that covers the window |
| MonotonicWindows.MonotonicWindow.Update | snapshot_quant_v4/buffers/monotonic_queue.py:121-142 | the window is the last min(n, window) samples, and all deque pushes and pops so far are at most 4 per update |
| MonotonicWindows.MonotonicWindow.Maximum | snapshot_quant_v4/buffers/monotonic_queue.py:67-78 | the reported maximum occurs in the window and nothing in it is larger |
| MonotonicWindows.MonotonicWindow.Minimum | snapshot_quant_v4/buffers/monotonic_queue.py:80-91 | the reported minimum occurs in the window and nothing in it is smaller |
| MonotonicWindows.MonotonicWindow.PositionOf | snapshot_quant_v4/buffers/monotonic_queue.py:99-119 | the relative position is in [0, 1], clamped outside the range and 0.5 for an empty or flat window |
| RingBuffers.RingBuffer.Push | snapshot_quant_v4/buffers/ring_buffer.py:72-90 | the contents are the last capacity samples and the evicted one is handed back |
| RingBuffers.RingBuffer.At | snapshot_quant_v4/buffers/ring_buffer.py:99-115 | access by age counts back from the newest sample, outside it there is nothing |
| RingBuffers.RingBuffer.Values | snapshot_quant_v4/buffers/ring_buffer.py:138-151 | iteration yields the contents oldest first across the wrap |
| RollingMeans.RollingMean.Update | snapshot_quant_v4/buffers/rolling_mean.py:85-94 | if each addition errs by at most u, after any number of updates the sum is within (window + 2 * (recompute_interval - 1)) * u of the exact window sum |
| RollingMeans.RollingMean.Recompute | snapshot_quant_v4/buffers/rolling_mean.py:102-108 | recomputation leaves at most window errors, and changes nothing in exact arithmetic |
| RollingMeans.SumOfWindowMoves | snapshot_quant_v4/buffers/rolling_mean.py:85-94 | adding the new and subtracting the evicted sample gives the sum of the new window |
| RollingVariances.CentredIsTwoPass | snapshot_quant_v4/buffers/rolling_variance.py:108-118 | the centred sum of squares equals the two-pass one and is never negative, so the floor at zero is inert (Cauchy-Schwarz) |
| RollingVariances.RollingVariance.Update | snapshot_quant_v4/buffers/rolling_variance.py:126-137 | for every push sequence the result is the two-pass sample variance of the last window samples |
| RollingVariances.RollingVariance.Recompute | snapshot_quant_v4/buffers/rolling_variance.py:146-155 | recomputing both accumulators from the ring changes neither |
| RollingVariances.WelfordStep | snapshot_quant_v4/buffers/rolling_variance.py:193-199 | one step of the recurrence moves mean and centred sum of squares of any sequence by one sample |
| RollingVariances.WelfordVariance.Update | snapshot_quant_v4/buffers/rolling_variance.py:193-199 | the recurrence gives the two-pass sample variance of everything seen |
| RollingVariances.FeedBoth | snapshot_quant_v4/buffers/rolling_variance.py:126-199 | one stream through a windowed and a streaming estimator object: both report the same variance until the first eviction, and the windowed one the two-pass variance of the window ever after |
| TimeAwareEmas.TimeAwareEMA.Update | snapshot_quant_v4/buffers/rolling_ema.py:94-108 | the average always stays within the range of the samples seen since the reset |
| TimeAwareEmas.HoldDependsOnElapsedTime | snapshot_quant_v4/buffers/rolling_ema.py:94-108 | under constant input the value depends on elapsed time only, however it is split into updates |
| TimeAwareEmas.HoldDependsOnCountedTime | snapshot_quant_v4/buffers/rolling_ema.py:94-108 | for intervals of any sign and length: the value depends on the sum of what counts of them, none of which is negative or beyond max_dt_ms |
| TimeAwareEmas.SamplingRateInvariance | snapshot_quant_v4/buffers/rolling_ema.py:94-108 | two samplings of one piecewise-constant signal give the same average |
| TimeAwareEmas.HalfLifeHalves | snapshot_quant_v4/utils/math_utils.py:110-132 | after one half life half of the distance is left, however sampled |
| TimeAwareEmas.AlphaIsWeight | snapshot_quant_v4/utils/math_utils.py:122-132 | the smoothing factor is a weight in [0, 1) for every interval, negative and oversized ones included, and zero for a repeated timestamp |
| TimeAwareEmas.AlphaIsZeroExactlyWhen | snapshot_quant_v4/utils/math_utils.py:110-132 | with any half life, a sample has no weight if and only if its interval is not positive |
| SharedStatisticsModel.SharedStatistics.UpdatePre | snapshot_quant_v4/engine/stats.py:161-174 | the two rings, filled at different times, hold the mids and the recorded steps of the run since the last reset |
| SharedStatisticsModel.SharedStatistics.EfficiencyRatio | snapshot_quant_v4/engine/stats.py:261-277 | the in-place ratio equals the ratio defined on the run, which is always in [0, 1] |
| SharedStatisticsModel.EfficiencyIsNetOverPath | snapshot_quant_v4/engine/stats.py:261-277 | ratio times path equals displacement, or the ratio is one where that would exceed one, with displacement and path spelled out from the run; zero with fewer than three mids, two steps or without movement |
| SharedStatisticsModel.StepsAreDistances | snapshot_quant_v4/engine/stats.py:161-174 | the recorded steps are, in order, the distances between consecutive mids at exactly the snapshots that continue a sequence |
| SharedStatisticsModel.NetAtMostPath | snapshot_quant_v4/engine/stats.py:261-277 | over an uninterrupted lookback displacement never exceeds path length, so the clamp is inert |
| SharedStatisticsModel.ClampInertAfterGap | snapshot_quant_v4/engine/stats.py:161-174 | after a gap the clamp is inert for every path of positive mids if and only if the unrecorded step is out of reach: the ring has wrapped or the lookback stops short of it |
| EngineRuns.ClampAfterRestartExactlyWhen | snapshot_quant_v4/engine/stats.py:261-277 | with the default validator: the efficiency ratio of every engine run with n >= 4 snapshots since a restart is reported uncut if and only if n exceeds the ring; otherwise a feed the engine accepts gets it cut |
| Rounding.RoundIsNearestEven | snapshot_quant_v4/utils/math_utils.py:198-220 | half-to-even rounding is the only integer within one half whose ties are even |
| Rounding.RoundToTickIsNearest | snapshot_quant_v4/utils/math_utils.py:198-212 | the rounded price is within half a tick of the price |
| Rounding.AlignedExactlyWhen | snapshot_quant_v4/utils/math_utils.py:215-220 | a price counts as aligned if and only if it is within a millionth of a tick of some whole number of ticks |
| MarketRecords.LevelAt | snapshot_quant_v4/utils/types.py:265-276 | a level is found exactly when some level of the ladder rests at that price |
| MarketQuality.Evaluate | snapshot_quant_v4/engine/quality.py:52-166 | exactly the applicable reasons are reported, each once, and the market is tradable exactly when none applies; both scores are in [0, 1], the liquidity score is the place of the depth between half its minimum and its norm, the book quality the product of the places of spread, usable levels, liquidity and warmup; no report at all, but a ValueError, exactly when max_signal_spread_ticks is at most one |
| MarketQuality.TradableExactlyWhen | snapshot_quant_v4/engine/quality.py:76-135 | the gate is open if and only if the market is warm, the spread within its limit, the first min_depth_levels of both ladders have size, price and orders enough, the touch has size enough, depth is not far below its norm and the latest gap is long enough ago |
| MarketQuality.UsableLevels | snapshot_quant_v4/engine/quality.py:120-135 | the count is the length of the unbroken run of usable levels from the touch |
| Execution.Walk | snapshot_quant_v4/engine/execution.py:273-296 | the walk fills min(quantity, visible depth) at the greedy average; nothing filled reports the touch |
| Execution.WalkIsOptimal | snapshot_quant_v4/engine/execution.py:273-296 | no other split of the filled quantity over the whole ladder is cheaper to buy or dearer to sell |
| Execution.WalkTakesFromTheFront | snapshot_quant_v4/engine/execution.py:273-296 | what a walk obtains and pays is that of a split that uses up level after level from the touch until the order is filled or a level has no size |
| Execution.ConsumedIsLeast | snapshot_quant_v4/engine/execution.py:273-296 | the levels consumed hold what was filled, and one level less would not |
| Execution.AverageWithinLevels | snapshot_quant_v4/engine/execution.py:273-296 | the average lies between the touch and the last level used |
| Execution.AverageNeverImproves | snapshot_quant_v4/engine/execution.py:273-296 | a larger order never gets a better average |
| Execution.QuoteNeverImproves | snapshot_quant_v4/engine/execution.py:236-271 | with the depth walk a larger order is never quoted a better price, rounding and touch included |
| Execution.QuoteNeverBeatsTouch | snapshot_quant_v4/engine/execution.py:236-271 | no quote beats the touch it crosses, it is on the tick grid whenever the touch is, and it is complete exactly when fully filled |
| Execution.QuoteIsNearAverage | snapshot_quant_v4/engine/execution.py:236-271 | a quote is within half a tick of the walked average plus the offset on the paying side, or at the touch when that is dearer |
| Execution.SameBookLosesTheSpread | snapshot_quant_v4/engine/execution.py:316-389 | opening and closing on one book loses at least the spread per share before costs, and costs never add to it |
| Execution.CostsNonNegative | snapshot_quant_v4/engine/execution.py:96-155 | a round trip at non-negative prices never costs less than nothing |
| Execution.RoundTripAmount | snapshot_quant_v4/engine/execution.py:96-143 | the exact amount: brokerage and turnover charges marked up by the service tax, plus transaction tax on the sale and stamp duty on the purchase |
| Execution.CostsFollowTheLegs | snapshot_quant_v4/engine/execution.py:96-143 | exchanging purchase and sale price changes the cost by transaction tax minus stamp duty on the difference of turnover, and by nothing else |
| Execution.OppositePositions | snapshot_quant_v4/engine/execution.py:348-389 | a long and a short with the same entry and exit price report opposite gross results, and costs that differ by exactly the taxes of their exchanged legs |
| Execution.ExitIsNearTouch | snapshot_quant_v4/engine/execution.py:348-389 | a position is left on the side it was not entered by, within half a tick of touch or walked average less the slippage and never better than the touch, and charged for its own two legs |
| Execution.StopAndTargetBracketEntry | snapshot_quant_v4/engine/execution.py:316-346 | for the filled quantity, each on the grid and within half a tick of its configured distance from the fill; the stop is strictly on the losing and the target strictly on the winning side whenever that distance exceeds half a tick |
| Execution.BornStoppedExactlyWhen | snapshot_quant_v4/engine/execution.py:316-346 | from book and configuration alone, on any book: a new position has its stop already hit by the book it is opened on exactly when the touch it would leave by is at or beyond its rounded entry moved by the stop distance and rounded again |
| Execution.BornStoppedOnGrid | snapshot_quant_v4/engine/execution.py:316-346 | on the grid, for every valid configuration: a long is born stopped if and only if bid <= Round(Round(ask + aggression) - stop_ticks), a short if and only if Round(Round(bid - aggression) + stop_ticks) <= ask, in ticks, with the walked average for the touch when the depth walk is on |
| Execution.ShippedStopAtBirthExactlyWhen | snapshot_quant_v4/config.py:946-947 | with the default stop and aggression, on every book one tick of 5 paise wide: every long and every short is born stopped if and only if the bid is at least 750.00 |
| Execution.ShippedStopIsReachable | snapshot_quant_v4/config.py:225-241 | the default validator accepts such a book, and the default quality gate lets it through, at every price |
| Execution.WideBookStopsAtBirth | snapshot_quant_v4/engine/execution.py:427-445 | under every configuration a book on the grid whose spread is at least the stop distance stops the position it opens, long or short |
| Execution.MirrorQuote | snapshot_quant_v4/engine/execution.py:236-271 | buying from a book is quoted the reflection of what selling into the reflected book is quoted |
| Execution.OffsetsReflectExactlyWhen | snapshot_quant_v4/engine/execution.py:298-312 | aggression and slippage are the same on a reflected book if and only if they are configured in ticks, are zero, or the mid lies on the mirror |
| Execution.MirrorPosition | snapshot_quant_v4/engine/execution.py:316-346 | with the same aggression on both books, a short on a book is the reflection of a long on the reflected book: entry, stop and target |
| Execution.MirrorStopAndGross | snapshot_quant_v4/engine/execution.py:348-445 | with the same slippage on both books, a position and its reflection have their stops hit by the same books and report the same gross result |

## Left out

- Floating point: rounding, infinities and the six-decimal normalisation of `round_to_tick`; the only rounding modelled is the explicit error of `RollingMeans.RollingMean.Update`.
- Square roots: variances are modelled, standard deviations are inputs of the regime detector.
- `math.exp`: only the laws of an exponential are used, so numeric values of decays are not modelled.
- `EMAPair`, and every shared statistic other than mids and step lengths: depth, spread, imbalance, volume and stability enter the engine as arbitrary readings.
- Confidence model, adaptive threshold and the features other than refill: one-expression transforms, modelled as arbitrary inputs to each snapshot.
- Stop, target, cost clearance and fill quantity inside the trading machine: inputs of each step; stop prices themselves are modelled in `Execution.dfy`, `clears_cost`, `target_hit` and unrealised ticks are not.
- `_build_reasons`, feature contributions, detail strings, log calls, profit display: presentation only.
- `EngineRegistry` and routing by token: engines share no state.
- Interleaving inside the engine's own reset, and lost updates of the gap counter: the counter takes no part in any decision; the flag protocol is interleaved step by step in `GapProtocol.dfy`, where one announcement is a single step.
- The engine object takes one gap announcement or one snapshot per call; announcements falling inside a call are the subject of `GapProtocol.dfy`, not of `SymbolEngines`.
- Queue timing: a poll that times out is a step that may happen whenever the queue is empty; sleeping and real time are not modelled.
- HandOffQueue.SnapshotQueue.Drain: one thread only, and already closed; the polling loop among other threads is the step model beside it.
- Scenario fields no decision reads (session high, low, average price, token, symbol), the order in which random numbers are drawn, and pacing: random numbers are arbitrary values within their ranges.
- Iterating a scenario source twice without starting it again: prices start over while the clock goes on; the model counts one iteration from `start`, where loop index and emitted count agree.
- RefillProxy.RefillProvesRiseExactlyWhen: the recovery fraction is assumed to be a ratio of integers, as every float is.
- SymbolEngines.SymbolEngine.Process: the signal spread limit is assumed to exceed one tick; at one tick or less the quality gate raises on every accepted snapshot.
- Configuration loading, adapters for live feeds and replay, parsing, output, one-time passwords, the runner: input and output around the core.
