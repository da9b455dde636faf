/** The refill proxy (snapshot_quant_v4/features/refill.py): a volume-confirmed
    consumption of the touch, then its replenishment at the same price. */
module RefillProxy {
  import opened Prelude
  import opened MarketRecords
  import opened ReceivableBooks
  import opened Rounding
  import opened SnapshotValidation
  import opened TimeAwareEmas

  datatype RefillConfig = RefillConfig(
    consumptionFraction: real,
    recoveryFraction: real,
    windowMs: real,
    volumeConfirmationRatio: real,
    failureWeight: real,
    maxDtMs: real)

  /** The range checks of snapshot_quant_v4/config.py:476-492. */
  predicate ValidConfig(c: RefillConfig) {
    && 0.01 <= c.consumptionFraction <= 1.0
    && 0.01 <= c.recoveryFraction <= 2.0
    && 0.0 < c.windowMs
    && 0.0 <= c.volumeConfirmationRatio <= 2.0
    && 0.0 <= c.failureWeight <= 2.0
    && 0.0 < c.maxDtMs
  }

  const SCORE_LIMIT := 1.5

  datatype Episode = Episode(pricePaise: int, quantityBefore: int, drop: int, startedMs: int)

  /** What one snapshot did to one side. */
  datatype Outcome = Nothing | Detected | Refilled | Failed

  // -- the episode machine ------------------------------------------------------

  /** The touch of the previous snapshot lost enough of its size, looked up at
      its own price, and enough volume traded to explain the loss. */
  function Detect(c: RefillConfig, side: Side, now: Snapshot, before: Snapshot): Option<Episode> {
    var touch := before.Touch(side);
    var current := LevelAt(now.Levels(side), touch.pricePaise);
    var drop := touch.quantity - if current.Some? then current.value.quantity else 0;
    if touch.quantity <= 0 then None
    else if drop as real < touch.quantity as real * c.consumptionFraction then None
    else if now.deltaVolume as real < drop as real * c.volumeConfirmationRatio then None
    else Some(Episode(touch.pricePaise, touch.quantity, drop, now.raw.exchangeTimestampMs))
  }

  /** An episode ends refilled, failed, or stays in flight. */
  function Resolve(c: RefillConfig, side: Side, e: Episode, now: Snapshot): (outcome: Outcome)
    ensures outcome != Detected
  {
    var level := LevelAt(now.Levels(side), e.pricePaise);
    if level.None? then Failed
    else if level.value.quantity as real >= e.quantityBefore as real * c.recoveryFraction then Refilled
    else if (now.raw.exchangeTimestampMs - e.startedMs) as real > c.windowMs then Failed
    else Nothing
  }

  function Completeness(side: Side, e: Episode, now: Snapshot): real {
    var level := LevelAt(now.Levels(side), e.pricePaise);
    if level.None? then 0.0
    else MinReal(1.0, level.value.quantity as real / MaxInt(e.quantityBefore, 1) as real)
  }

  function OutcomeOf(c: RefillConfig, side: Side, e: Option<Episode>, now: Snapshot, before: Snapshot): Outcome {
    if e.Some? then Resolve(c, side, e.value, now)
    else if Detect(c, side, now, before).Some? then Detected
    else Nothing
  }

  function EpisodeAfter(c: RefillConfig, side: Side, e: Option<Episode>, now: Snapshot, before: Snapshot)
    : Option<Episode>
  {
    match OutcomeOf(c, side, e, now, before)
    case Nothing => e
    case Detected => Detect(c, side, now, before)
    case _ => None
  }

  function Impulse(c: RefillConfig, side: Side, e: Option<Episode>, now: Snapshot, before: Snapshot): real {
    match OutcomeOf(c, side, e, now, before)
    case Refilled => Completeness(side, e.value, now)
    case Failed => -c.failureWeight
    case _ => 0.0
  }

  /** Decay over the interval, then the impulse, within the bound. */
  function ScoreAfter(decay: real -> real, maxDt: real, score: real, dt: real, impulse: real): real {
    var decayed := score * (1.0 - Alpha(decay, maxDt, dt));
    if impulse == 0.0 then decayed else Clamp(decayed + impulse, -SCORE_LIMIT, SCORE_LIMIT)
  }

  /** Without a previous snapshot an episode in flight is dropped and the
      scores are left alone. */
  function NextEpisode(c: RefillConfig, side: Side, e: Option<Episode>, now: Snapshot, previous: Option<Snapshot>)
    : Option<Episode>
  {
    if previous.None? then None else EpisodeAfter(c, side, e, now, previous.value)
  }

  function NextScore(c: RefillConfig, decay: real -> real, side: Side, score: real, e: Option<Episode>,
                     now: Snapshot, previous: Option<Snapshot>): real
  {
    if previous.None? then score
    else ScoreAfter(decay, c.maxDtMs, score, now.dtMs, Impulse(c, side, e, now, previous.value))
  }

  class DecayingScore {
    const decay: real -> real
    const maxDtMs: real
    var value: real

    constructor (decay: real -> real, maxDtMs: real)
      ensures this.decay == decay && this.maxDtMs == maxDtMs && value == 0.0
    {
      this.decay, this.maxDtMs, value := decay, maxDtMs, 0.0;
    }

    method Decay(dt: real)
      modifies this
      ensures value == old(value) * (1.0 - Alpha(decay, maxDtMs, dt))
    {
      if value == 0.0 {
        return;
      }
      var effective := Clamp(dt, 0.0, maxDtMs);
      if effective <= 0.0 {
        return;
      }
      value := value * decay(effective);
    }

    method Add(impulse: real)
      modifies this
      ensures value == Clamp(old(value) + impulse, -SCORE_LIMIT, SCORE_LIMIT)
    {
      value := Clamp(value + impulse, -SCORE_LIMIT, SCORE_LIMIT);
    }

    method Reset()
      modifies this
      ensures value == 0.0
    {
      value := 0.0;
    }
  }

  class RefillFeature {
    const config: RefillConfig
    const bidScore: DecayingScore
    const askScore: DecayingScore
    var episodes: map<Side, Option<Episode>>

    ghost predicate Valid()
      reads this, bidScore, askScore
    {
      && bidScore != askScore
      && bidScore.decay == askScore.decay
      && bidScore.maxDtMs == askScore.maxDtMs == config.maxDtMs
      && Bid in episodes && Ask in episodes
    }

    function ScoreOf(side: Side): real
      reads bidScore, askScore
    {
      if side == Bid then bidScore.value else askScore.value
    }

    constructor (config: RefillConfig, decay: real -> real)
      ensures Valid() && this.config == config && bidScore.decay == decay
      ensures fresh(bidScore) && fresh(askScore)
      ensures episodes[Bid].None? && episodes[Ask].None? && ScoreOf(Bid) == ScoreOf(Ask) == 0.0
    {
      this.config := config;
      bidScore := new DecayingScore(decay, config.maxDtMs);
      askScore := new DecayingScore(decay, config.maxDtMs);
      episodes := map[Bid := None, Ask := None];
    }

    /** None is the invalid feature of a snapshot that continues nothing. */
    method Compute(now: Snapshot, previous: Option<Snapshot>) returns (raw: Option<real>)
      requires Valid()
      modifies this, bidScore, askScore
      ensures Valid()
      ensures raw.Some? <==> previous.Some?
      ensures raw.Some? ==> raw.value == ScoreOf(Bid) - ScoreOf(Ask)
      ensures forall side :: side == Bid || side == Ask ==>
        episodes[side] == NextEpisode(config, side, old(episodes[side]), now, previous)
      ensures forall side :: side == Bid || side == Ask ==>
        ScoreOf(side) == NextScore(config, bidScore.decay, side, old(ScoreOf(side)), old(episodes[side]), now, previous)
    {
      hide EpisodeAfter, Impulse, Alpha;
      if previous.None? {
        episodes := map[Bid := None, Ask := None];
        return None;
      }
      AdvanceSide(Bid, bidScore, now, previous.value);
      AdvanceSide(Ask, askScore, now, previous.value);
      raw := Some(bidScore.value - askScore.value);
    }

    method AdvanceSide(side: Side, score: DecayingScore, now: Snapshot, before: Snapshot)
      requires Valid() && score == if side == Bid then bidScore else askScore
      modifies this, score
      ensures Valid()
      ensures episodes == old(episodes)[side := EpisodeAfter(config, side, old(episodes[side]), now, before)]
      ensures score.value == ScoreAfter(score.decay, score.maxDtMs, old(score.value), now.dtMs,
                                        Impulse(config, side, old(episodes[side]), now, before))
    {
      hide Alpha;
      score.Decay(now.dtMs);
      var impulse := ProcessSide(side, now, before);
      if impulse != 0.0 {
        score.Add(impulse);
      }
    }

    method ProcessSide(side: Side, now: Snapshot, before: Snapshot) returns (impulse: real)
      requires Valid()
      modifies this
      ensures Valid()
      ensures episodes == old(episodes)[side := EpisodeAfter(config, side, old(episodes[side]), now, before)]
      ensures impulse == Impulse(config, side, old(episodes[side]), now, before)
    {
      impulse := 0.0;
      if episodes[side].Some? {
        var episode := episodes[side].value;
        var level := LevelAt(now.Levels(side), episode.pricePaise);
        if level.None? {
          episodes := episodes[side := None];
          return -config.failureWeight;
        }
        var recoveryTarget := episode.quantityBefore as real * config.recoveryFraction;
        if level.value.quantity as real >= recoveryTarget {
          episodes := episodes[side := None];
          return MinReal(1.0, level.value.quantity as real / MaxInt(episode.quantityBefore, 1) as real);
        }
        if (now.raw.exchangeTimestampMs - episode.startedMs) as real > config.windowMs {
          episodes := episodes[side := None];
          return -config.failureWeight;
        }
      } else {
        var detected := Detect(config, side, now, before);
        if detected.Some? {
          episodes := episodes[side := detected];
        }
      }
    }

    method Reset()
      requires Valid()
      modifies this, bidScore, askScore
      ensures Valid()
      ensures episodes[Bid].None? && episodes[Ask].None? && ScoreOf(Bid) == ScoreOf(Ask) == 0.0
    {
      bidScore.Reset();
      askScore.Reset();
      episodes := map[Bid := None, Ask := None];
    }
  }

  // -- runs between resets --------------------------------------------------------

  /** The snapshot that snapshot k continues; the first one continues none. */
  function Before(run: seq<Snapshot>, k: nat): Option<Snapshot>
    requires k < |run|
  {
    if k == 0 then None else Some(run[k - 1])
  }

  /** The episode in flight after the first k snapshots. */
  function EpisodeAt(c: RefillConfig, side: Side, run: seq<Snapshot>, k: nat): Option<Episode>
    requires k <= |run|
  {
    if k == 0 then None
    else NextEpisode(c, side, EpisodeAt(c, side, run, k - 1), run[k - 1], Before(run, k - 1))
  }

  function OutcomeAt(c: RefillConfig, side: Side, run: seq<Snapshot>, k: nat): Outcome
    requires k < |run|
  {
    if k == 0 then Nothing else OutcomeOf(c, side, EpisodeAt(c, side, run, k), run[k], run[k - 1])
  }

  function ScoreAt(c: RefillConfig, decay: real -> real, side: Side, run: seq<Snapshot>, k: nat): real
    requires k <= |run|
  {
    if k == 0 then 0.0
    else NextScore(c, decay, side, ScoreAt(c, decay, side, run, k - 1), EpisodeAt(c, side, run, k - 1),
                   run[k - 1], Before(run, k - 1))
  }

  function Count(c: RefillConfig, side: Side, run: seq<Snapshot>, k: nat, what: Outcome): nat
    requires k <= |run|
  {
    if k == 0 then 0 else Count(c, side, run, k - 1, what) + if OutcomeAt(c, side, run, k - 1) == what then 1 else 0
  }

  /** Every episode detected is resolved exactly once or still in flight. */
  lemma {:induction false} EpisodesResolveOnce(c: RefillConfig, side: Side, run: seq<Snapshot>, k: nat)
    requires k <= |run|
    ensures Count(c, side, run, k, Detected)
         == Count(c, side, run, k, Refilled) + Count(c, side, run, k, Failed)
            + (if EpisodeAt(c, side, run, k).Some? then 1 else 0)
  {
    hide Detect, Resolve;
    if k > 0 {
      EpisodesResolveOnce(c, side, run, k - 1);
    }
  }

  /** Traded volume that the detections among the first k snapshots rest on. */
  function VolumeClaimed(c: RefillConfig, side: Side, run: seq<Snapshot>, k: nat): real
    requires k <= |run|
  {
    if k == 0 then 0.0
    else
      var claim := if OutcomeAt(c, side, run, k - 1) == Detected
                   then EpisodeAt(c, side, run, k).value.drop as real * c.volumeConfirmationRatio
                   else 0.0;
      VolumeClaimed(c, side, run, k - 1) + claim
  }

  /** What the validator makes of an uninterrupted stretch: volume never falls
      and each snapshot reports its increase. */
  predicate Continuous(run: seq<Snapshot>) {
    forall k :: 0 < k < |run| ==>
      && 0 <= run[k].deltaVolume
      && run[k].deltaVolume == run[k].raw.volumeTradedToday - run[k - 1].raw.volumeTradedToday
  }

  lemma DetectionIsPaidFor(c: RefillConfig, side: Side, now: Snapshot, before: Snapshot)
    requires Detect(c, side, now, before).Some?
    ensures Detect(c, side, now, before).value.drop as real * c.volumeConfirmationRatio <= now.deltaVolume as real
  {
  }

  /** Per side, all detections together claim no more volume than was traded. */
  lemma {:induction false} VolumeBudget(c: RefillConfig, side: Side, run: seq<Snapshot>, k: nat)
    requires Continuous(run) && 0 < k <= |run|
    ensures VolumeClaimed(c, side, run, k)
         <= (run[k - 1].raw.volumeTradedToday - run[0].raw.volumeTradedToday) as real
  {
    hide Detect, Resolve;
    if k > 1 {
      VolumeBudget(c, side, run, k - 1);
      if OutcomeAt(c, side, run, k - 1) == Detected {
        DetectionIsPaidFor(c, side, run[k - 1], run[k - 2]);
      }
    }
  }

  /** The snapshots a validator accepts among the first k of a feed. */
  function AcceptedOf(v: ValidationConfig, tick: real, raws: seq<RawSnapshot>, k: nat): seq<Snapshot>
    requires 0.0 < tick && k <= |raws|
  {
    if k == 0 then []
    else
      var verdict := VerdictAt(v, tick, raws, k - 1);
      AcceptedOf(v, tick, raws, k - 1) + if verdict.Accepted? then [verdict.snapshot] else []
  }

  /** The history of the validator is the end of the run it accepted. */
  predicate EndsIn(run: seq<Snapshot>, p: Option<Previous>) {
    if run == [] then p.None?
    else p.Some? && p.value.volumeTradedToday == run[|run| - 1].raw.volumeTradedToday
  }

  lemma AcceptedContinues(v: ValidationConfig, tick: real, p: Option<Previous>, raw: RawSnapshot)
    requires 0.0 < tick && Judge(v, tick, p, raw).Accepted? && !Judge(v, tick, p, raw).gap
    ensures var s := Judge(v, tick, p, raw).snapshot;
      && s.raw == raw
      && (p.Some? ==> 0 <= s.deltaVolume == raw.volumeTradedToday - p.value.volumeTradedToday)
    ensures History(v, tick, p, raw).Some?
    ensures History(v, tick, p, raw).value.volumeTradedToday == raw.volumeTradedToday
  {
    AcceptedExactlyWhen(v, tick, p, raw);
  }

  lemma {:induction false} GapFreeFeedIsContinuous(v: ValidationConfig, tick: real, raws: seq<RawSnapshot>, k: nat)
    requires 0.0 < tick && k <= |raws| && GapFree(v, tick, raws, k)
    ensures var run := AcceptedOf(v, tick, raws, k);
      Continuous(run) && EndsIn(run, HistoryAt(v, tick, raws, k))
  {
    hide Judge, Continuous, EndsIn;
    if k == 0 {
      NothingAccepted();
    } else {
      GapFreeFeedIsContinuous(v, tick, raws, k - 1);
      var verdict, p := VerdictAt(v, tick, raws, k - 1), HistoryAt(v, tick, raws, k - 1);
      var run := AcceptedOf(v, tick, raws, k - 1);
      if verdict.Accepted? {
        AcceptedContinues(v, tick, p, raws[k - 1]);
        assert AcceptedOf(v, tick, raws, k) == run + [verdict.snapshot];
        OneMoreAccepted(run, p, verdict.snapshot, HistoryAt(v, tick, raws, k));
      } else {
        assert AcceptedOf(v, tick, raws, k) == run;
        assert HistoryAt(v, tick, raws, k) == p;
      }
    }
  }

  lemma NothingAccepted()
    ensures Continuous([]) && EndsIn([], None)
  {
  }

  lemma OneMoreAccepted(run: seq<Snapshot>, p: Option<Previous>, s: Snapshot, after: Option<Previous>)
    requires Continuous(run) && EndsIn(run, p)
    requires p.Some? ==> 0 <= s.deltaVolume == s.raw.volumeTradedToday - p.value.volumeTradedToday
    requires after.Some? && after.value.volumeTradedToday == s.raw.volumeTradedToday
    ensures Continuous(run + [s]) && EndsIn(run + [s], after)
  {
  }

  /** The budget on a feed as it arrives: on a gap-free stretch, whatever the
      validator rejects in between, the claims of one side never exceed the
      growth of the cumulative volume. */
  lemma {:induction false} VolumeBudgetOfFeed(c: RefillConfig, v: ValidationConfig, tick: real, side: Side,
                                              raws: seq<RawSnapshot>, k: nat)
    requires 0.0 < tick && k <= |raws| && GapFree(v, tick, raws, k)
    ensures var run := AcceptedOf(v, tick, raws, k);
      run != [] ==>
        && HistoryAt(v, tick, raws, k).Some?
        && VolumeClaimed(c, side, run, |run|)
           <= (HistoryAt(v, tick, raws, k).value.volumeTradedToday - run[0].raw.volumeTradedToday) as real
  {
    hide VolumeClaimed, Continuous, AcceptedOf;
    GapFreeFeedIsContinuous(v, tick, raws, k);
    var run := AcceptedOf(v, tick, raws, k);
    if run != [] {
      VolumeBudget(c, side, run, |run|);
    }
  }

  /** Scores stay within their bound. */
  lemma {:induction false} ScoresBounded(c: RefillConfig, decay: real -> real, side: Side, run: seq<Snapshot>, k: nat)
    requires ValidConfig(c) && Exponential(decay) && k <= |run|
    ensures -SCORE_LIMIT <= ScoreAt(c, decay, side, run, k) <= SCORE_LIMIT
  {
    hide Impulse, Alpha;
    if k == 1 {
      ScoresBounded(c, decay, side, run, 0);
    } else if k > 1 {
      ScoresBounded(c, decay, side, run, k - 1);
      ScoreAfterBounded(decay, c.maxDtMs, ScoreAt(c, decay, side, run, k - 1), run[k - 1].dtMs,
                        Impulse(c, side, EpisodeAt(c, side, run, k - 1), run[k - 1], run[k - 2]));
    }
  }

  lemma ScoreAfterBounded(decay: real -> real, maxDt: real, score: real, dt: real, impulse: real)
    requires Exponential(decay) && 0.0 < maxDt && -SCORE_LIMIT <= score <= SCORE_LIMIT
    ensures -SCORE_LIMIT <= ScoreAfter(decay, maxDt, score, dt, impulse) <= SCORE_LIMIT
  {
    AlphaIsWeight(decay, maxDt, dt);
    hide Alpha, Exponential;
    var keep := 1.0 - Alpha(decay, maxDt, dt);
    if score >= 0.0 {
      PartOf(keep, score);
    } else {
      PartOf(keep, -score);
      assert keep * -score == -(score * keep);
    }
  }

  /** Some level rests at a price. */
  predicate Rests(side: Side, s: Snapshot, pricePaise: int) {
    exists l :: l in s.Levels(side) && l.pricePaise == pricePaise
  }

  /** The touch last seen has lost enough of its size at its own price, and enough
      was traded for that. */
  predicate Consumed(c: RefillConfig, side: Side, now: Snapshot, before: Snapshot) {
    var touch := before.Touch(side);
    var lost := touch.quantity - HeldAt(side, now, touch.pricePaise);
    && 0 < touch.quantity && touch.quantity as real * c.consumptionFraction <= lost as real
    && lost as real * c.volumeConfirmationRatio <= now.deltaVolume as real
  }

  /** Enough is back at the price of an episode. */
  predicate Recovered(c: RefillConfig, side: Side, e: Episode, now: Snapshot) {
    Rests(side, now, e.pricePaise)
    && e.quantityBefore as real * c.recoveryFraction <= HeldAt(side, now, e.pricePaise) as real
  }

  /** Nothing rests there any more, or not enough and for too long. */
  predicate GivenUp(c: RefillConfig, side: Side, e: Episode, now: Snapshot) {
    || !Rests(side, now, e.pricePaise)
    || (!Recovered(c, side, e, now) && c.windowMs < (now.raw.exchangeTimestampMs - e.startedMs) as real)
  }

  /** What happens to an episode of a run, each outcome by its own condition, and
      what is remembered of one that begins. */
  lemma OutcomeExactlyWhen(c: RefillConfig, side: Side, run: seq<Snapshot>, k: nat)
    requires 0 < k < |run|
    ensures var (e, outcome, now) := (EpisodeAt(c, side, run, k), OutcomeAt(c, side, run, k), run[k]);
      var (after, before) := (EpisodeAt(c, side, run, k + 1), run[k - 1]);
      && (outcome == Detected <==> e.None? && Consumed(c, side, now, before))
      && (outcome == Refilled <==> e.Some? && Recovered(c, side, e.value, now))
      && (outcome == Failed <==> e.Some? && GivenUp(c, side, e.value, now))
      && (outcome == Nothing ==> after == e)
      && (outcome == Refilled || outcome == Failed ==> after.None?)
      && (outcome == Detected ==>
            var touch := before.Touch(side);
            after == Some(Episode(touch.pricePaise, touch.quantity,
                                  touch.quantity - HeldAt(side, now, touch.pricePaise), now.raw.exchangeTimestampMs)))
  {
    var e, now := EpisodeAt(c, side, run, k), run[k];
    DetectedExactly(c, side, now, run[k - 1]);
    if e.Some? {
      ResolvedExactly(c, side, e.value, now);
    }
    hide Detect, Resolve, HeldAt, Consumed, Recovered, GivenUp;
  }

  lemma DetectedExactly(c: RefillConfig, side: Side, now: Snapshot, before: Snapshot)
    ensures Detect(c, side, now, before).Some? <==> Consumed(c, side, now, before)
    ensures var touch := before.Touch(side);
      Detect(c, side, now, before).Some? ==>
        Detect(c, side, now, before).value
        == Episode(touch.pricePaise, touch.quantity, touch.quantity - HeldAt(side, now, touch.pricePaise),
                   now.raw.exchangeTimestampMs)
  {
    hide LevelAt;
  }

  lemma ResolvedExactly(c: RefillConfig, side: Side, e: Episode, now: Snapshot)
    ensures Resolve(c, side, e, now) == Refilled <==> Recovered(c, side, e, now)
    ensures Resolve(c, side, e, now) == Failed <==> GivenUp(c, side, e, now)
  {
    LevelsRest(side, now, e.pricePaise);
    hide LevelAt, Rests;
  }

  lemma LevelsRest(side: Side, s: Snapshot, pricePaise: int)
    ensures Rests(side, s, pricePaise) <==> LevelAt(s.Levels(side), pricePaise).Some?
  {
  }

  /** The part of the old size that rests at the price again, at most all of it. */
  function PartBack(side: Side, e: Episode, now: Snapshot): real {
    MinReal(1.0, HeldAt(side, now, e.pricePaise) as real / MaxInt(1, e.quantityBefore) as real)
  }

  /** How a score moves: it decays over the interval, as far as that counts, and a
      refill adds the part of the old size that is back, at most one, a failure
      takes the failure weight, nothing else changes it; it is kept within the
      limit. */
  lemma {:induction false} ScoreMovesExactly(c: RefillConfig, decay: real -> real, side: Side, run: seq<Snapshot>,
                                             k: nat)
    requires ValidConfig(c) && Exponential(decay) && 0 < k < |run|
    ensures var (e, outcome, now) := (EpisodeAt(c, side, run, k), OutcomeAt(c, side, run, k), run[k]);
      var counts := if now.dtMs <= 0.0 then 0.0 else MinReal(c.maxDtMs, now.dtMs);
      var decayed := Product(ScoreAt(c, decay, side, run, k), decay(counts));
      var moved := ScoreAt(c, decay, side, run, k + 1);
      && (outcome in {Nothing, Detected} ==> moved == decayed)
      && (outcome == Failed ==> moved == MaxReal(-SCORE_LIMIT, decayed - c.failureWeight))
      && (outcome == Refilled ==>
            var back := PartBack(side, e.value, now);
            0.0 <= back ==> moved == MinReal(SCORE_LIMIT, decayed + back))
  {
    var now, score, e := run[k], ScoreAt(c, decay, side, run, k), EpisodeAt(c, side, run, k);
    ScoresBounded(c, decay, side, run, k);
    hide Resolve, Detect, EpisodeAfter, LevelAt, EpisodeAt, Product;
    ImpulseExactly(c, side, e, now, run[k - 1]);
    MovesBy(decay, c.maxDtMs, score, now.dtMs, Impulse(c, side, e, now, run[k - 1]));
    hide Impulse, ScoreAfter, PartBack, Exponential;
  }

  lemma ImpulseExactly(c: RefillConfig, side: Side, e: Option<Episode>, now: Snapshot, before: Snapshot)
    ensures match OutcomeOf(c, side, e, now, before)
      case Refilled =>
        e.Some? && Impulse(c, side, e, now, before)
                   == PartBack(side, e.value, now)
      case Failed => Impulse(c, side, e, now, before) == -c.failureWeight
      case _ => Impulse(c, side, e, now, before) == 0.0
  {
    hide Detect, LevelAt;
  }

  lemma MovesBy(decay: real -> real, maxDt: real, score: real, dt: real, impulse: real)
    requires Exponential(decay) && 0.0 < maxDt && -SCORE_LIMIT <= score <= SCORE_LIMIT
    ensures var decayed := Product(score, decay(if dt <= 0.0 then 0.0 else MinReal(maxDt, dt)));
      && (0.0 <= impulse ==> ScoreAfter(decay, maxDt, score, dt, impulse) == MinReal(SCORE_LIMIT, decayed + impulse))
      && (impulse <= 0.0 ==> ScoreAfter(decay, maxDt, score, dt, impulse) == MaxReal(-SCORE_LIMIT, decayed + impulse))
      && (impulse == 0.0 ==> ScoreAfter(decay, maxDt, score, dt, impulse) == decayed)
  {
    ScoreAfterBounded(decay, maxDt, score, dt, 0.0);
    DecayedBy(decay, maxDt, score, dt);
    hide Alpha, Product, Exponential;
  }

  lemma DecayedBy(decay: real -> real, maxDt: real, score: real, dt: real)
    requires Exponential(decay) && 0.0 < maxDt
    ensures score * (1.0 - Alpha(decay, maxDt, dt))
         == Product(score, decay(if dt <= 0.0 then 0.0 else MinReal(maxDt, dt)))
  {
  }

  // -- what a score is worth ------------------------------------------------------

  /** The previous touch kept more than the fraction that counts as consumed. */
  predicate TouchKept(c: RefillConfig, side: Side, now: Snapshot, before: Snapshot) {
    var touch := before.Touch(side);
    var current := LevelAt(now.Levels(side), touch.pricePaise);
    (touch.quantity - if current.Some? then current.value.quantity else 0) as real
      < touch.quantity as real * c.consumptionFraction
  }

  /** A book that never loses its touch scores nothing, however it grows. */
  lemma {:induction false} NoConsumptionNoScore(c: RefillConfig, decay: real -> real, side: Side, run: seq<Snapshot>,
                                                k: nat)
    requires k <= |run|
    requires forall i :: 0 < i < |run| ==> TouchKept(c, side, run[i], run[i - 1])
    ensures EpisodeAt(c, side, run, k).None? && ScoreAt(c, decay, side, run, k) == 0.0
  {
    if k > 0 {
      NoConsumptionNoScore(c, decay, side, run, k - 1);
    }
    if k > 1 {
      assert TouchKept(c, side, run[k - 1], run[k - 2]);
      assert Detect(c, side, run[k - 1], run[k - 2]).None?;
      hide Detect, Resolve, Alpha;
    }
  }

  /** Size resting at a price. */
  function HeldAt(side: Side, s: Snapshot, pricePaise: int): int {
    var level := LevelAt(s.Levels(side), pricePaise);
    if level.Some? then level.value.quantity else 0
  }

  function ImpulseAt(c: RefillConfig, side: Side, run: seq<Snapshot>, k: nat): real
    requires k < |run|
  {
    if k == 0 then 0.0 else Impulse(c, side, EpisodeAt(c, side, run, k), run[k], run[k - 1])
  }

  /** The episode in flight at k was detected at m. */
  ghost predicate BeganAt(c: RefillConfig, side: Side, run: seq<Snapshot>, m: nat, k: nat)
    requires k <= |run|
  {
    0 < m < k && OutcomeAt(c, side, run, m) == Detected && EpisodeAt(c, side, run, m + 1) == EpisodeAt(c, side, run, k)
  }

  /** If snapshot k is rewarded, its level holds more than it held when the
      consumption was detected. */
  ghost predicate RewardIsRise(c: RefillConfig, side: Side, run: seq<Snapshot>, k: nat)
    requires k < |run|
  {
    ImpulseAt(c, side, run, k) > 0.0 ==>
      var e := EpisodeAt(c, side, run, k);
      e.Some? && exists m: nat ::
        BeganAt(c, side, run, m, k)
            && HeldAt(side, run[m], e.value.pricePaise) < HeldAt(side, run[k], e.value.pricePaise)
  }

  lemma {:induction false} EpisodeHasBegun(c: RefillConfig, side: Side, run: seq<Snapshot>, k: nat) returns (m: nat)
    requires k <= |run| && EpisodeAt(c, side, run, k).Some?
    ensures BeganAt(c, side, run, m, k) && EpisodeAt(c, side, run, k) == Detect(c, side, run[m], run[m - 1])
  {
    hide Detect, Resolve;
    m := k - 1;
    if OutcomeAt(c, side, run, k - 1) != Detected {
      m := EpisodeHasBegun(c, side, run, k - 1);
    }
  }

  /** With a recovery target above what a consumption may leave standing, every
      reward on every run is a rise. */
  lemma {:induction false} RewardProvesRise(c: RefillConfig, side: Side, run: seq<Snapshot>, k: nat)
    requires ValidConfig(c) && k < |run| && c.recoveryFraction > 1.0 - c.consumptionFraction
    ensures RewardIsRise(c, side, run, k)
  {
    hide Impulse, Detect, Resolve, EpisodeAt, OutcomeAt, HeldAt;
    if ImpulseAt(c, side, run, k) > 0.0 {
      var e := EpisodeAt(c, side, run, k);
      RewardNeedsTarget(c, side, e, run[k], run[k - 1]);
      var m := EpisodeHasBegun(c, side, run, k);
      RefillIsRise(c, side, e.value, run[m], run[m - 1], run[k]);
    }
  }

  lemma RewardNeedsTarget(c: RefillConfig, side: Side, e: Option<Episode>, now: Snapshot, before: Snapshot)
    requires ValidConfig(c) && Impulse(c, side, e, now, before) > 0.0
    ensures e.Some?
    ensures HeldAt(side, now, e.value.pricePaise) as real >= e.value.quantityBefore as real * c.recoveryFraction
  {
  }

  lemma RefillIsRise(c: RefillConfig, side: Side, e: Episode, detecting: Snapshot, before: Snapshot, now: Snapshot)
    requires ValidConfig(c) && c.recoveryFraction > 1.0 - c.consumptionFraction
    requires Detect(c, side, detecting, before) == Some(e)
    requires HeldAt(side, now, e.pricePaise) as real >= e.quantityBefore as real * c.recoveryFraction
    ensures HeldAt(side, detecting, e.pricePaise) < HeldAt(side, now, e.pricePaise)
  {
    var held := HeldAt(side, now, e.pricePaise);
    assert HeldAt(side, detecting, e.pricePaise) == e.quantityBefore - e.drop;
    if held <= e.quantityBefore - e.drop {
      Overlap(e.quantityBefore as real, c.consumptionFraction, c.recoveryFraction, e.drop as real, held as real);
    }
  }

  lemma Overlap(size: real, consumed: real, recovered: real, drop: real, held: real)
    requires 0.0 < size && size * consumed <= drop && size * recovered <= held <= size - drop
    ensures recovered <= 1.0 - consumed
  {
    var excess := recovered + consumed - 1.0;
    assert size * excess == size * recovered + size * consumed - size;
    assert size * excess <= 0.0;
  }

  // -- the same on feeds ------------------------------------------------------------

  /** On a gap-free feed every reward is a rise. */
  ghost predicate FeedRewardsRises(c: RefillConfig, v: ValidationConfig, tick: real, side: Side, raws: seq<RawSnapshot>)
    requires 0.0 < tick
  {
    GapFree(v, tick, raws, |raws|) ==>
      var run := AcceptedOf(v, tick, raws, |raws|);
      forall k :: 0 <= k < |run| ==> RewardIsRise(c, side, run, k)
  }

  /** Three messages, each continuing the one before. */
  lemma ThreeAccepted(v: ValidationConfig, tick: real, r0: RawSnapshot, r1: RawSnapshot, r2: RawSnapshot)
    requires 0.0 < tick && SoundBook(v, tick, r0) && FollowsOn(v, tick, r0, r1) && FollowsOn(v, tick, r1, r2)
    ensures var raws := [r0, r1, r2];
      && GapFree(v, tick, raws, 3)
      && AcceptedOf(v, tick, raws, 3)
         == [Enriched(tick, r0, None), Enriched(tick, r1, Some(Summary(r0))), Enriched(tick, r2, Some(Summary(r1)))]
  {
    assert r1.bids != [] && r1.asks != [];
    hide StructureFault, FollowsOn, Enriched;
    AcceptedExactlyWhen(v, tick, None, r0);
    FollowerIsAccepted(v, tick, r0, r1);
    FollowerIsAccepted(v, tick, r1, r2);
    var raws := [r0, r1, r2];
    assert Judge(v, tick, None, r0) == Accepted(Enriched(tick, r0, None), false);
    hide Judge, SoundBook;
    assert HistoryAt(v, tick, raws, 1) == Some(Summary(r0));
    assert HistoryAt(v, tick, raws, 2) == Some(Summary(r1));
    assert AcceptedOf(v, tick, raws, 1) == [Enriched(tick, r0, None)];
    assert AcceptedOf(v, tick, raws, 2) == [Enriched(tick, r0, None), Enriched(tick, r1, Some(Summary(r0)))];
  }

  /** A bid of `size` is traded down to `left` and then simply stays there. */
  ghost predicate TradedDown(r0: RawSnapshot, r1: RawSnapshot, r2: RawSnapshot, size: int, left: int)
    requires r0.bids != [] && r1.bids != [] && r2.bids != []
  {
    && 0 < left < size
    && r0.bids[0].quantity == size && r1.bids[0].quantity == r2.bids[0].quantity == left
    && r0.bids[0].pricePaise == r1.bids[0].pricePaise == r2.bids[0].pricePaise
    && r1.volumeTradedToday - r0.volumeTradedToday >= 2 * (size - left)
  }

  /** Its consumption is detected and then rewarded, although nothing came back. */
  lemma StandingStillIsRewarded(c: RefillConfig, v: ValidationConfig, tick: real,
                                r0: RawSnapshot, r1: RawSnapshot, r2: RawSnapshot, size: int, left: int)
    requires ValidConfig(c) && 0.0 < tick
    requires SoundBook(v, tick, r0) && FollowsOn(v, tick, r0, r1) && FollowsOn(v, tick, r1, r2)
    requires TradedDown(r0, r1, r2, size, left)
    requires c.recoveryFraction == left as real / size as real && c.recoveryFraction <= 1.0 - c.consumptionFraction
    ensures var raws := [r0, r1, r2];
      var run := AcceptedOf(v, tick, raws, 3);
      && GapFree(v, tick, raws, 3) && |run| == 3
      && OutcomeAt(c, Bid, run, 1) == Detected && ImpulseAt(c, Bid, run, 2) > 0.0
      && HeldAt(Bid, run[1], r0.bids[0].pricePaise) == HeldAt(Bid, run[2], r0.bids[0].pricePaise) == left
      && !FeedRewardsRises(c, v, tick, Bid, raws)
  {
    ThreeAccepted(v, tick, r0, r1, r2);
    var s0, s1 := Enriched(tick, r0, None), Enriched(tick, r1, Some(Summary(r0)));
    var s2 := Enriched(tick, r2, Some(Summary(r1)));
    var raws, price := [r0, r1, r2], r0.bids[0].pricePaise;
    var e := Episode(price, size, size - left, r1.exchangeTimestampMs);
    LossIsDetected(c, tick, r0, r1, size, left);
    StayIsRewarded(c, s1, s2, e, left);
    hide Judge, SoundBook, FollowsOn, Detect, Impulse, Resolve, HeldAt, Enriched;
    assert AcceptedOf(v, tick, raws, 3) == [s0, s1, s2];
    var run := AcceptedOf(v, tick, raws, 3);
    assert EpisodeAt(c, Bid, run, 1) == None;
    assert OutcomeAt(c, Bid, run, 1) == Detected;
    assert EpisodeAt(c, Bid, run, 2) == Some(e);
    assert ImpulseAt(c, Bid, run, 2) == Impulse(c, Bid, Some(e), s2, s1);
    OnlyOneBegun(c, run, left, price);
  }

  lemma OnlyOneBegun(c: RefillConfig, run: seq<Snapshot>, left: int, price: int)
    requires |run| == 3 && ImpulseAt(c, Bid, run, 2) > 0.0
    requires EpisodeAt(c, Bid, run, 2).Some? && EpisodeAt(c, Bid, run, 2).value.pricePaise == price
    requires HeldAt(Bid, run[1], price) == HeldAt(Bid, run[2], price) == left
    ensures !RewardIsRise(c, Bid, run, 2)
  {
    hide ImpulseAt, EpisodeAt, HeldAt, OutcomeAt;
  }

  lemma LossIsDetected(c: RefillConfig, tick: real, r0: RawSnapshot, r1: RawSnapshot, size: int, left: int)
    requires ValidConfig(c) && r0.bids != [] && r0.asks != [] && r1.bids != [] && r1.asks != [] && 0 < left < size
    requires r0.bids[0].quantity == size && r1.bids[0].quantity == left
    requires r0.bids[0].pricePaise == r1.bids[0].pricePaise
    requires r1.volumeTradedToday - r0.volumeTradedToday >= 2 * (size - left)
    requires c.recoveryFraction == left as real / size as real && c.recoveryFraction <= 1.0 - c.consumptionFraction
    ensures Detect(c, Bid, Enriched(tick, r1, Some(Summary(r0))), Enriched(tick, r0, None))
         == Some(Episode(r0.bids[0].pricePaise, size, size - left, r1.exchangeTimestampMs))
  {
    hide LevelAt, ToTicks, Mid, ValidConfig, Detect, Product;
    var now, before, drop := Enriched(tick, r1, Some(Summary(r0))), Enriched(tick, r0, None), size - left;
    LossIsEnough(c, left as real, size as real, drop as real);
    TouchIsFound(r1.bids);
    assert before.Touch(Bid) == r0.bids[0] && now.Levels(Bid) == r1.bids;
    assert now.deltaVolume as real >= 2.0 * drop as real;
    DetectsLoss(c, now, before, size, drop);
  }

  lemma DetectsLoss(c: RefillConfig, now: Snapshot, before: Snapshot, size: int, drop: int)
    requires 0 < size == before.bestBid.quantity
    requires var level := LevelAt(now.Levels(Bid), before.bestBid.pricePaise);
      level.Some? && drop == size - level.value.quantity
    requires Product(size as real, c.consumptionFraction) <= drop as real
    requires Product(drop as real, c.volumeConfirmationRatio) <= now.deltaVolume as real
    ensures Detect(c, Bid, now, before)
         == Some(Episode(before.bestBid.pricePaise, size, drop, now.raw.exchangeTimestampMs))
  {
    hide LevelAt;
  }

  lemma TouchIsFound(levels: seq<DepthLevel>)
    requires levels != []
    ensures LevelAt(levels, levels[0].pricePaise) == Some(levels[0])
  {
  }

  lemma StayIsRewarded(c: RefillConfig, s1: Snapshot, s2: Snapshot, e: Episode, left: int)
    requires ValidConfig(c) && s1.raw.bids != [] && s2.raw.bids != [] && 0 < left < e.quantityBefore
    requires s1.raw.bids[0].pricePaise == s2.raw.bids[0].pricePaise == e.pricePaise
    requires s1.raw.bids[0].quantity == s2.raw.bids[0].quantity == left
    requires c.recoveryFraction == left as real / e.quantityBefore as real
    ensures HeldAt(Bid, s1, e.pricePaise) == HeldAt(Bid, s2, e.pricePaise) == left
    ensures Impulse(c, Bid, Some(e), s2, s1) > 0.0
  {
    TouchIsFound(s1.raw.bids);
    TouchIsFound(s2.raw.bids);
    hide LevelAt;
    assert e.quantityBefore as real * c.recoveryFraction == left as real;
    assert left as real / e.quantityBefore as real > 0.0;
  }

  lemma LossIsEnough(c: RefillConfig, left: real, size: real, drop: real)
    requires ValidConfig(c) && 0.0 < left && 0.0 < size && drop == size - left
    requires c.recoveryFraction == left / size && c.recoveryFraction <= 1.0 - c.consumptionFraction
    ensures Product(size, c.consumptionFraction) <= drop
    ensures Product(drop, c.volumeConfirmationRatio) <= 2.0 * drop
  {
    QuotientTimes(left, size);
    ConsumptionFits(left, size, c.recoveryFraction, c.consumptionFraction);
    MulMonotone(drop, c.volumeConfirmationRatio, 2.0);
  }

  lemma QuotientTimes(left: real, size: real)
    requires 0.0 < left && 0.0 < size
    ensures size * (left / size) == left && 0.0 < left / size
  {
  }

  lemma ConsumptionFits(left: real, size: real, r: real, f: real)
    requires 0.0 < size && size * r == left && 0.0 <= f <= 1.0 - r
    ensures 0.0 <= size * f <= size - left
  {
    MulMonotone(size, 0.0, f);
    MulMonotone(size, f, 1.0 - r);
    assert size * (1.0 - r) == size - size * r;
  }

  /** A book again with another size at the best bid, more volume, and some more
      at the best ask. */
  function Again(book: RawSnapshot, quantity: int, volume: int, more: int): RawSnapshot
    requires book.bids != [] && book.asks != []
  {
    book.(bids := book.bids[0 := book.bids[0].(quantity := quantity)],
          asks := book.asks[0 := book.asks[0].(quantity := book.asks[0].quantity + more)],
          volumeTradedToday := book.volumeTradedToday + volume)
  }

  lemma AgainIsSound(v: ValidationConfig, tick: real, book: RawSnapshot, quantity: int, volume: int, more: nat)
    requires 0.0 < tick && SoundBook(v, tick, book) && 0 < quantity
    ensures SoundBook(v, tick, Again(book, quantity, volume, more))
  {
    hide IsTickAligned, ToTicks;
    var bids, asks := Again(book, quantity, volume, more).bids, Again(book, quantity, volume, more).asks;
    TouchResized(Bid, book.bids, quantity);
    TouchResized(Ask, book.asks, book.asks[0].quantity + more);
  }

  lemma TouchResized(side: Side, levels: seq<DepthLevel>, quantity: int)
    requires levels != [] && SoundLadder(side, levels) && 0 < quantity && 0 < levels[0].pricePaise
    ensures SoundLadder(side, levels[0 := levels[0].(quantity := quantity)])
  {
    var resized := levels[0 := levels[0].(quantity := quantity)];
    assert levels[0] in levels;
    forall l | l in resized
      ensures SoundLevel(l)
    {
      var k :| 0 <= k < |resized| && resized[k] == l;
      assert k > 0 ==> levels[k] in levels;
    }
    assert forall k :: 0 <= k < |levels| ==> resized[k].pricePaise == levels[k].pricePaise;
  }

  lemma NoDistance(tick: real)
    requires 0.0 < tick
    ensures ToTicks(0.0, tick) == 0.0
  {
  }

  lemma AgainFollows(v: ValidationConfig, tick: real, book: RawSnapshot, q: int, q': int, volume: int, volume': int,
                     more: nat, more': nat)
    requires ValidLimits(v) && 0.0 < tick && SoundBook(v, tick, book) && 0 < q && 0 < q'
    requires volume <= volume' && (q != q' || more != more')
    ensures FollowsOn(v, tick, Again(book, q, volume, more), Again(book, q', volume', more'))
  {
    AgainIsSound(v, tick, book, q', volume', more');
    var last, raw := Again(book, q, volume, more), Again(book, q', volume', more');
    assert Mid(raw) - Mid(last) == 0.0;
    hide SoundBook;
    NoDistance(tick);
  }

  /** Under every validator configuration that accepts any book at all: every
      reward on every gap-free feed is a rise exactly when the recovery target
      lies above what a consumption may leave standing, which the configuration
      does not ask for. (Fractions are ratios of integers, as every float is.) */
  lemma {:induction false} RefillProvesRiseExactlyWhen(c: RefillConfig, v: ValidationConfig, tick: real,
                                                       book: RawSnapshot, left: int, size: int)
    requires ValidConfig(c) && ValidLimits(v) && 0.0 < tick && SoundBook(v, tick, book)
    requires 0 < left && 0 < size && c.recoveryFraction == left as real / size as real
    ensures (forall side, raws :: FeedRewardsRises(c, v, tick, side, raws))
        <==> c.recoveryFraction > 1.0 - c.consumptionFraction
  {
    if c.recoveryFraction > 1.0 - c.consumptionFraction {
      forall side, raws
        ensures FeedRewardsRises(c, v, tick, side, raws)
      {
        var run := AcceptedOf(v, tick, raws, |raws|);
        forall k | 0 <= k < |run|
          ensures RewardIsRise(c, side, run, k)
        {
          RewardProvesRise(c, side, run, k);
        }
      }
    } else {
      FractionBelowOne(c, left, size);
      var traded := 2 * (size - left);
      AgainIsSound(v, tick, book, size, 0, 0);
      AgainFollows(v, tick, book, size, left, 0, traded, 0, 0);
      AgainFollows(v, tick, book, left, left, traded, traded, 0, 1);
      hide SoundBook, FollowsOn, FeedRewardsRises;
      StandingStillIsRewarded(c, v, tick, Again(book, size, 0, 0), Again(book, left, traded, 0),
                              Again(book, left, traded, 1), size, left);
    }
  }

  lemma FractionBelowOne(c: RefillConfig, left: int, size: int)
    requires ValidConfig(c) && 0 < left && 0 < size && c.recoveryFraction == left as real / size as real
    requires c.recoveryFraction <= 1.0 - c.consumptionFraction
    ensures left < size
  {
    assert c.recoveryFraction * size as real == left as real;
    assert (1.0 - c.recoveryFraction) * size as real > 0.0;
  }

  /** The shipped defaults, 0.35 and 0.60, on a feed the default validator accepts:
      the bid falls from 100 to 60 shares, never rises, and is rewarded. */
  lemma DefaultsRewardStandingStill(c: RefillConfig)
    requires ValidConfig(c) && c.consumptionFraction == 0.35 && c.recoveryFraction == 0.60
    ensures var raws := [PlainBook(10000, 100, 0, 0), PlainBook(10000, 60, 200, 80), PlainBook(10000, 60, 400, 80)];
      var run := AcceptedOf(DEFAULTS, TICK, raws, 3);
      && GapFree(DEFAULTS, TICK, raws, 3) && |run| == 3
      && OutcomeAt(c, Bid, run, 1) == Detected && ImpulseAt(c, Bid, run, 2) > 0.0
      && HeldAt(Bid, run[1], 10000) == HeldAt(Bid, run[2], 10000) == 60
  {
    var r0, r1, r2 := PlainBook(10000, 100, 0, 0), PlainBook(10000, 60, 200, 80), PlainBook(10000, 60, 400, 80);
    PlainBookIsSound(10000, 100, 0, 0);
    PlainBookIsSound(10000, 60, 200, 80);
    PlainBookIsSound(10000, 60, 400, 80);
    NoDistance(TICK);
    hide SoundBook;
    assert FollowsOn(DEFAULTS, TICK, r0, r1) && FollowsOn(DEFAULTS, TICK, r1, r2);
    hide FollowsOn, FeedRewardsRises;
    StandingStillIsRewarded(c, DEFAULTS, TICK, r0, r1, r2, 100, 60);
  }
}
