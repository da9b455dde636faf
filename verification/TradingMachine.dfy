/** The trading state machine of one instrument
    (snapshot_quant_v4/engine/state_machine.py): its records, what one update and
    one forced close do, and the class that does them in place. */
module TradingMachine {
  import opened Prelude
  import opened MarketQuality

  datatype TradeState =
    | Warmup
    | Neutral
    | WatchLong
    | WatchShort
    | InLong
    | InShort
    | ExitLong
    | ExitShort
    | Cooldown

  datatype Direction = Flat | Long | Short {
    function Signum(): int {
      match this
      case Flat => 0
      case Long => 1
      case Short => -1
    }
  }

  datatype Position = Position(direction: Direction, quantity: int, entryMs: real) {
    predicate IsOpen() {
      direction != Flat && quantity > 0
    }
  }

  datatype MachineConfig = MachineConfig(
    watchTimeoutMs: real,
    entryConfirmations: int,
    minWatchConfidence: real,
    minEntryConfidence: real,
    exitConfidence: real,
    minHoldMs: real,
    maxHoldMs: real,
    cooldownMs: real,
    reversalRatio: real,
    requireLtpConfirmation: bool,
    requireZeroCrossRearm: bool,
    exitOnQualityLoss: bool,
    useTarget: bool,
    oppositionThreshold: real,
    quantity: int)

  /** The range checks of snapshot_quant_v4/config.py:954-979. */
  predicate ValidConfig(c: MachineConfig) {
    && 0.0 < c.watchTimeoutMs
    && 1 <= c.entryConfirmations
    && 0.0 <= c.minWatchConfidence <= c.minEntryConfidence <= 1.0
    && 0.0 <= c.exitConfidence <= 1.0
    && 0.0 <= c.minHoldMs < c.maxHoldMs
    && 0.0 <= c.cooldownMs
    && 0.0 <= c.reversalRatio
    && 0 < c.quantity
  }

  datatype CompositeResult = CompositeResult(valid: bool, smoothed: real, confidence: real)

  datatype Threshold = Threshold(entry: real, watch: real, exit: real)

  datatype LtpFeature = LtpFeature(valid: bool, value: real)

  /** Everything one update reads. The stop and target predicates are those of
      the position held, the fill that of an entry made now. */
  datatype Input = Input(
    nowMs: real,
    composite: CompositeResult,
    threshold: Threshold,
    tradable: bool,
    reasons: seq<BlockReason>,
    ltp: Option<LtpFeature>,
    stopHit: bool,
    targetHit: bool,
    costCleared: bool,
    filledQuantity: int)

  datatype ExitReason = Stop | Target | Time | Reversal | ConfidenceLost | QualityLost

  /** The result of one step. `marked` is the position that the reported exit
      quote and profit-and-loss value. */
  datatype Output = Output(
    previous: TradeState,
    current: TradeState,
    position: Option<Position>,
    marked: Option<Position>,
    exitReason: Option<ExitReason>)

  datatype Machine = Machine(
    state: TradeState,
    position: Option<Position>,
    watchDeadlineMs: real,
    confirmations: int,
    confirmationSign: int,
    cooldownUntilMs: real,
    rearmBlockSign: int)

  const START := Machine(Warmup, None, 0.0, 0, 0, 0.0, 0)

  // -- what an update decides --------------------------------------------------

  /** An unusable composite counts as no score at all. */
  function Score(i: Input): real {
    if i.composite.valid then i.composite.smoothed else 0.0
  }

  function Confidence(i: Input): real {
    if i.composite.valid then i.composite.confidence else 0.0
  }

  predicate Critical(reason: BlockReason) {
    reason in {FeedGap, PriceGap, SpreadTooWide, LiquidityBelowThreshold, BookTooThin}
  }

  /** The first exit rule that applies to a held position, if any. */
  function ExitDecision(c: MachineConfig, p: Position, i: Input): Option<ExitReason> {
    var held := i.nowMs - p.entryMs;
    if i.stopHit then Some(Stop)
    else if held < c.minHoldMs then None
    else if c.useTarget && i.targetHit then Some(Target)
    else if held >= c.maxHoldMs then Some(Time)
    else if Score(i) * p.direction.Signum() as real <= -i.threshold.exit * c.reversalRatio then Some(Reversal)
    else if Confidence(i) < c.exitConfidence then Some(ConfidenceLost)
    else if c.exitOnQualityLoss && exists r :: r in i.reasons && Critical(r) then Some(QualityLost)
    else None
  }

  /** The score is usable, the gate open and the direction d is strong enough to
      be watched. */
  predicate Watchable(c: MachineConfig, rearmBlockSign: int, d: Direction, i: Input) {
    && d != Flat
    && i.composite.valid && i.tradable
    && Sign(Score(i)) == d.Signum()
    && !(c.requireZeroCrossRearm && rearmBlockSign == d.Signum())
    && Abs(Score(i)) >= i.threshold.watch
    && Confidence(i) >= c.minWatchConfidence
  }

  /** The traded price has spoken and does not contradict d. */
  predicate TapeAgrees(c: MachineConfig, d: Direction, i: Input) {
    !c.requireLtpConfirmation ||
    (&& i.ltp.Some? && i.ltp.value.valid
     && (d == Long ==> i.ltp.value.value > -c.oppositionThreshold)
     && (d == Short ==> i.ltp.value.value < c.oppositionThreshold))
  }

  /** All that one confirming snapshot must satisfy, beyond being watchable. */
  predicate Confirms(c: MachineConfig, d: Direction, i: Input) {
    && Abs(Score(i)) >= i.threshold.entry
    && Confidence(i) >= c.minEntryConfidence
    && TapeAgrees(c, d, i)
    && i.costCleared
  }

  function DirectionOf(score: real): Direction {
    if score > 0.0 then Long else if score < 0.0 then Short else Flat
  }

  function WatchState(d: Direction): TradeState {
    if d == Long then WatchLong else WatchShort
  }

  function HeldState(d: Direction): TradeState {
    if d == Long then InLong else InShort
  }

  function ExitState(d: Direction): TradeState {
    if d == Long then ExitLong else ExitShort
  }

  /** Re-arming: a block survives only while the score keeps its sign. */
  function Rearmed(m: Machine, i: Input): Machine {
    m.(rearmBlockSign := if Sign(Score(i)) == m.rearmBlockSign then m.rearmBlockSign else 0)
  }

  function Quiet(before: Machine, after: Machine): (Machine, Output) {
    (after, Output(before.state, after.state, after.position, None, None))
  }

  /** A held position is either kept and marked, or closed and marked. */
  function StepOpen(c: MachineConfig, m: Machine, p: Position, i: Input): (Machine, Output) {
    var reason := ExitDecision(c, p, i);
    if reason.None? then
      (m, Output(m.state, m.state, Some(p), Some(p), None))
    else
      var after := Machine(ExitState(p.direction), None, m.watchDeadlineMs, 0, 0,
                           i.nowMs + c.cooldownMs, p.direction.Signum());
      (after, Output(m.state, after.state, None, Some(p), reason))
  }

  function Opened(c: MachineConfig, d: Direction, i: Input): Position {
    Position(d, if i.filledQuantity > 0 then i.filledQuantity else c.quantity, i.nowMs)
  }

  /** NEUTRAL and the two watch states. */
  function StepFlat(c: MachineConfig, m: Machine, i: Input): (Machine, Output) {
    var d := DirectionOf(Score(i));
    if !Watchable(c, m.rearmBlockSign, d, i) then
      Quiet(m, m.(state := Neutral, confirmations := 0))
    else if m.state != WatchState(d) then
      Quiet(m, m.(state := WatchState(d), watchDeadlineMs := i.nowMs + c.watchTimeoutMs,
                  confirmations := 0, confirmationSign := d.Signum()))
    else if i.nowMs > m.watchDeadlineMs then
      Quiet(m, m.(state := Neutral, confirmations := 0))
    else if !Confirms(c, d, i) then
      Quiet(m, m.(confirmations := 0))
    else
      var count := if m.confirmationSign != d.Signum() then 1 else m.confirmations + 1;
      if count < c.entryConfirmations then
        Quiet(m, m.(confirmations := count, confirmationSign := d.Signum()))
      else
        Quiet(m, m.(state := HeldState(d), position := Some(Opened(c, d, i)),
                    confirmations := 0, confirmationSign := d.Signum()))
  }

  /** One snapshot. */
  function Step(c: MachineConfig, m0: Machine, i: Input): (Machine, Output) {
    var m := Rearmed(m0, i);
    match m.state
    case InLong | InShort =>
      if m.position.None? || !m.position.value.IsOpen() then
        // The defensive branch: reported as if nothing had changed before it.
        var after := m.(state := Neutral);
        (after, Output(m.state, Neutral, m.position, None, None))
      else
        StepOpen(c, m, m.position.value, i)
    case ExitLong | ExitShort =>
      if c.cooldownMs > 0.0 && i.nowMs < m.cooldownUntilMs then Quiet(m, m.(state := Cooldown))
      else Quiet(m, m.(state := Neutral))
    case Cooldown =>
      Quiet(m, if i.nowMs >= m.cooldownUntilMs then m.(state := Neutral) else m)
    case Warmup =>
      Quiet(m, if WarmingUp in i.reasons then m else m.(state := Neutral))
    case _ =>
      StepFlat(c, m, i)
  }

  /** force_flat: close at the current book and start over. */
  function Flattened(m: Machine): (Machine, Output) {
    (START, Output(m.state, Warmup, None,
                   if m.position.Some? && m.position.value.IsOpen() then m.position else None, None))
  }

  // -- the machine -------------------------------------------------------------

  class TradingStateMachine {
    const config: MachineConfig
    var state: TradeState
    var position: Option<Position>
    var watchDeadlineMs: real
    var confirmations: int
    var confirmationSign: int
    var cooldownUntilMs: real
    var rearmBlockSign: int

    ghost function Now(): Machine
      reads this
    {
      Machine(state, position, watchDeadlineMs, confirmations, confirmationSign, cooldownUntilMs, rearmBlockSign)
    }

    constructor (config: MachineConfig)
      requires ValidConfig(config)
      ensures Now() == START && this.config == config
    {
      this.config := config;
      state, position := Warmup, None;
      watchDeadlineMs, confirmations, confirmationSign, cooldownUntilMs, rearmBlockSign := 0.0, 0, 0, 0.0, 0;
    }

    method Update(i: Input) returns (o: Output)
      modifies this
      ensures (Now(), o) == Step(config, old(Now()), i)
    {
      var previous := state;
      var score := Score(i);
      UpdateRearm(score);
      match state {
        case InLong | InShort =>
          o := HandleOpen(previous, i);
        case ExitLong | ExitShort =>
          o := HandlePostExit(previous, i.nowMs);
        case Cooldown =>
          if i.nowMs >= cooldownUntilMs {
            o := Transition(previous, Neutral);
          } else {
            o := Stay(previous);
          }
        case Warmup =>
          if WarmingUp in i.reasons {
            o := Stay(previous);
          } else {
            o := Transition(previous, Neutral);
          }
        case _ =>
          o := HandleFlat(previous, i);
      }
    }

    method ForceFlat() returns (o: Output)
      modifies this
      ensures (Now(), o) == Flattened(old(Now()))
    {
      var previous := state;
      var marked := None;
      if position.Some? && position.value.IsOpen() {
        marked := position;
      }
      position := None;
      Reset();
      o := Output(previous, Warmup, None, marked, None);
    }

    /** Drops every counter; a position is the business of ForceFlat. */
    method Reset()
      modifies this
      ensures Now() == START.(position := old(position))
    {
      state := Warmup;
      watchDeadlineMs, confirmations, confirmationSign := 0.0, 0, 0;
      cooldownUntilMs, rearmBlockSign := 0.0, 0;
    }

    method HandleOpen(previous: TradeState, i: Input) returns (o: Output)
      requires previous == state && state in {InLong, InShort}
      modifies this
      ensures old(position.Some? && position.value.IsOpen()) ==>
                (Now(), o) == StepOpen(config, old(Now()), old(position.value), i)
      ensures !old(position.Some? && position.value.IsOpen()) ==>
                Now() == old(Now()).(state := Neutral) && o == Output(previous, Neutral, position, None, None)
    {
      if position.None? || !position.value.IsOpen() {
        state := Neutral;
        o := Stay(previous);
        return;
      }
      var held := position.value;
      var reason := ExitReasonFor(held, i);
      if reason.None? {
        return Output(previous, state, position, position, None);
      }
      state := if held.direction == Long then ExitLong else ExitShort;
      cooldownUntilMs := i.nowMs + config.cooldownMs;
      rearmBlockSign := held.direction.Signum();
      position := None;
      confirmations := 0;
      confirmationSign := 0;
      o := Output(previous, state, None, Some(held), reason);
    }

    method ExitReasonFor(p: Position, i: Input) returns (reason: Option<ExitReason>)
      ensures reason == ExitDecision(config, p, i)
    {
      if i.stopHit {
        return Some(Stop);
      }
      var holdingMs := i.nowMs - p.entryMs;
      if holdingMs < config.minHoldMs {
        return None;
      }
      if config.useTarget && i.targetHit {
        return Some(Target);
      }
      if holdingMs >= config.maxHoldMs {
        return Some(Time);
      }
      if Score(i) * p.direction.Signum() as real <= -i.threshold.exit * config.reversalRatio {
        return Some(Reversal);
      }
      if Confidence(i) < config.exitConfidence {
        return Some(ConfidenceLost);
      }
      if config.exitOnQualityLoss {
        var critical := false;
        for k := 0 to |i.reasons|
          invariant critical <==> exists r :: r in i.reasons[..k] && Critical(r)
        {
          assert i.reasons[..k + 1] == i.reasons[..k] + [i.reasons[k]];
          critical := critical || Critical(i.reasons[k]);
        }
        assert i.reasons[..|i.reasons|] == i.reasons;
        if critical {
          return Some(QualityLost);
        }
      }
      return None;
    }

    method HandlePostExit(previous: TradeState, nowMs: real) returns (o: Output)
      modifies this`state
      ensures state == if config.cooldownMs > 0.0 && nowMs < cooldownUntilMs then Cooldown else Neutral
      ensures o == Output(previous, state, position, None, None)
    {
      if config.cooldownMs > 0.0 && nowMs < cooldownUntilMs {
        o := Transition(previous, Cooldown);
      } else {
        o := Transition(previous, Neutral);
      }
    }

    method HandleFlat(previous: TradeState, i: Input) returns (o: Output)
      requires previous == state
      modifies this
      ensures (Now(), o) == StepFlat(config, old(Now()), i)
    {
      if !i.composite.valid || !i.tradable {
        confirmations := 0;
        o := Transition(previous, Neutral);
        return;
      }
      var score, confidence := Score(i), Confidence(i);
      var directionSign := Sign(score);
      if directionSign == 0 || IsRearmBlocked(directionSign) {
        confirmations := 0;
        o := Transition(previous, Neutral);
        return;
      }
      var magnitude := Abs(score);
      if magnitude < i.threshold.watch || confidence < config.minWatchConfidence {
        confirmations := 0;
        o := Transition(previous, Neutral);
        return;
      }
      var watch := if directionSign > 0 then WatchLong else WatchShort;
      if state != watch {
        state := watch;
        watchDeadlineMs := i.nowMs + config.watchTimeoutMs;
        confirmations := 0;
        confirmationSign := directionSign;
        return Output(previous, watch, position, None, None);
      }
      if i.nowMs > watchDeadlineMs {
        confirmations := 0;
        o := Transition(previous, Neutral);
        return;
      }
      if EntryBlocked(directionSign, i) {
        confirmations := 0;
        o := Stay(previous);
        return;
      }
      if confirmationSign != directionSign {
        confirmationSign := directionSign;
        confirmations := 0;
      }
      confirmations := confirmations + 1;
      if confirmations < config.entryConfirmations {
        o := Stay(previous);
        return;
      }
      o := Enter(previous, directionSign, i);
    }

    predicate EntryBlocked(directionSign: int, i: Input) {
      if Abs(Score(i)) < i.threshold.entry then true
      else if Confidence(i) < config.minEntryConfidence then true
      else if config.requireLtpConfirmation && (i.ltp.None? || !i.ltp.value.valid) then true
      else if config.requireLtpConfirmation && directionSign > 0
              && i.ltp.value.value <= -config.oppositionThreshold then true
      else if config.requireLtpConfirmation && directionSign < 0
              && i.ltp.value.value >= config.oppositionThreshold then true
      else !i.costCleared
    }

    method Enter(previous: TradeState, directionSign: int, i: Input) returns (o: Output)
      requires directionSign != 0
      modifies this
      ensures var d := if directionSign > 0 then Long else Short;
        Now() == old(Now()).(state := HeldState(d), position := Some(Opened(config, d, i)), confirmations := 0)
      ensures o == Output(previous, state, position, None, None)
    {
      var direction := if directionSign > 0 then Long else Short;
      position := Some(Opened(config, direction, i));
      state := if directionSign > 0 then InLong else InShort;
      confirmations := 0;
      o := Output(previous, state, position, None, None);
    }

    method UpdateRearm(score: real)
      modifies this`rearmBlockSign
      ensures rearmBlockSign == if Sign(score) == old(rearmBlockSign) then old(rearmBlockSign) else 0
    {
      if rearmBlockSign == 0 {
        return;
      }
      if Sign(score) != rearmBlockSign {
        rearmBlockSign := 0;
      }
    }

    predicate IsRearmBlocked(directionSign: int)
      reads this
    {
      config.requireZeroCrossRearm && rearmBlockSign != 0 && rearmBlockSign == directionSign
    }

    method Transition(previous: TradeState, next: TradeState) returns (o: Output)
      modifies this`state
      ensures state == next && o == Output(previous, next, position, None, None)
    {
      state := next;
      o := Output(previous, next, position, None, None);
    }

    method Stay(previous: TradeState) returns (o: Output)
      ensures o == Output(previous, state, position, None, None)
    {
      o := Output(previous, state, position, None, None);
    }
  }
}
