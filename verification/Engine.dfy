/** The engine of one instrument (snapshot_quant_v4/engine/quant_engine.py): the
    order of its stages and what a gap does to them. */
module SymbolEngines {
  import opened Prelude
  import opened MarketRecords
  import opened RingBuffers
  import opened RollingMeans
  import opened TimeAwareEmas
  import opened SharedStatisticsModel
  import V = SnapshotValidation
  import Q = MarketQuality
  import R = RegimeDetection
  import C = Composite
  import T = TradingMachine

  datatype EngineConfig = EngineConfig(
    validation: V.ValidationConfig,
    tickSize: real,
    warmupSnapshots: nat,
    regime: R.RegimeConfig,
    composite: C.CompositeConfig,
    decay: real -> real,
    maxDt: real,
    quality: Q.QualityConfig,
    machine: T.MachineConfig)

  ghost predicate ValidConfig(c: EngineConfig) {
    && 0.0 < c.tickSize && 1 <= c.warmupSnapshots
    && R.ValidConfig(c.regime) && C.ValidConfig(c.composite) && T.ValidConfig(c.machine)
    && Exponential(c.decay) && 0.0 < c.maxDt
    // With a smaller signal spread the gate raises on every accepted snapshot.
    && Q.ValidQuality(c.quality) && 1.0 < c.quality.maxSignalSpreadTicks
  }

  /** What the clock and the components outside of the model contribute to one
      snapshot: any features with any confidence, any threshold, any verdict on
      stop, target, costs and fill. */
  datatype Readings = Readings(
    noteMs: real,
    gateMs: real,
    nowMs: real,
    features: C.Features,
    trend: real,
    trendReady: bool,
    volatility: real,
    relativeDepth: real,
    depthReferenceReady: bool,
    threshold: T.Threshold,
    stopHit: bool,
    targetHit: bool,
    costCleared: bool,
    filledQuantity: int)

  datatype Counters = Counters(accepted: nat, rejected: nat, blocked: nat, gaps: nat, resets: nat)

  datatype Engine = Engine(
    history: Option<V.Previous>,
    pending: bool,
    lastGapMs: Option<real>,
    run: seq<MidPoint>,
    detector: R.Detector,
    smoother: Ema,
    machine: T.Machine,
    index: nat,
    counters: Counters)

  const CREATED := Engine(None, false, None, [], R.FRESH, EMPTY_EMA, T.START, 0, Counters(0, 0, 0, 0, 0))

  /** What the caller gets for an accepted snapshot; `forced` is the close that
      preceded it, if a gap was pending. */
  datatype Report = Report(
    snapshot: Snapshot,
    regime: R.Regime,
    score: C.CompositeScore,
    reasons: seq<Q.BlockReason>,
    forced: Option<T.Output>,
    output: T.Output,
    index: nat)

  const MOMENTUM := "momentum"
  const LTP_CONFIRMATION := "ltp_confirmation"

  /** The dead band keeps rounding residue from reading as opposition. */
  function MomentumSign(f: C.Features): int {
    if MOMENTUM in f.at && f.at[MOMENTUM].valid then
      var value := f.at[MOMENTUM].value;
      if value > EPSILON then 1 else if value < -EPSILON then -1 else 0
    else 0
  }

  function LtpReading(f: C.Features): Option<T.LtpFeature> {
    if LTP_CONFIRMATION in f.at then Some(T.LtpFeature(f.at[LTP_CONFIRMATION].valid, f.at[LTP_CONFIRMATION].value))
    else None
  }

  // -- one snapshot -------------------------------------------------------------

  function Noted(e: Engine, atMs: real): Engine {
    e.(pending := true, lastGapMs := Some(atMs), counters := e.counters.(gaps := e.counters.gaps + 1))
  }

  /** force_flat and the reset of every estimator. */
  function Recovered(e: Engine): Engine {
    e.(pending := false, machine := T.Flattened(e.machine).0, history := None, run := [],
       detector := R.FRESH, smoother := EMPTY_EMA, counters := e.counters.(resets := e.counters.resets + 1))
  }

  function RegimeReading(c: EngineConfig, run: seq<MidPoint>, x: Readings): R.Reading
    requires 4 <= c.regime.window
  {
    R.Reading(|run|, x.trendReady, Efficiency(run, c.regime.window, c.regime.window), x.volatility, x.trend,
              MomentumSign(x.features))
  }

  function View(c: EngineConfig, e: Engine, s: Snapshot, x: Readings): Q.MarketView {
    Q.MarketView(|e.run|, c.warmupSnapshots, s.spreadTicks, s.raw.bids, s.raw.asks, x.relativeDepth,
                 x.depthReferenceReady, if e.lastGapMs.Some? then Some(x.gateMs - e.lastGapMs.value) else None)
  }

  function MachineInput(score: C.CompositeScore, reasons: seq<Q.BlockReason>, x: Readings): T.Input {
    T.Input(x.nowMs, T.CompositeResult(score.valid, score.smoothed, score.confidence), x.threshold, reasons == [],
            reasons, LtpReading(x.features), x.stopHit, x.targetHit, x.costCleared, x.filledQuantity)
  }

  /** The snapshot as the shared statistics see it. */
  function Counted(c: EngineConfig, e: Engine, s: Snapshot): Engine
    requires 0.0 < c.tickSize
  {
    e.(run := e.run + [MidPoint(s.mid / c.tickSize, s.isFirst)], index := e.index + 1,
       counters := e.counters.(accepted := e.counters.accepted + 1))
  }

  ghost function Reasons(c: EngineConfig, e: Engine, s: Snapshot, x: Readings): seq<Q.BlockReason>
    requires s.raw.bids != [] && s.raw.asks != []
  {
    Q.BlockReasons(c.quality, View(c, e, s, x))
  }

  function DetectorAfter(c: EngineConfig, e: Engine, x: Readings): R.Detector
    requires 4 <= c.regime.window
  {
    R.Hysteresis(c.regime, e.detector, R.Classify(c.regime, RegimeReading(c, e.run, x)))
  }

  function Scored(c: EngineConfig, e: Engine, regime: R.Regime, s: Snapshot, x: Readings): (C.CompositeScore, Ema)
    requires C.ValidConfig(c.composite) && C.WellFormed(x.features)
  {
    C.Assess(c.composite, c.decay, c.maxDt, x.features, C.WeightsFor(c.composite, regime), e.smoother, s.dtMs)
  }

  ghost function InputOf(c: EngineConfig, e: Engine, s: Snapshot, x: Readings): T.Input
    requires ValidConfig(c) && C.WellFormed(x.features) && s.raw.bids != [] && s.raw.asks != []
  {
    MachineInput(Scored(c, e, DetectorAfter(c, e, x).regime, s, x).0, Reasons(c, e, s, x), x)
  }

  ghost function Gated(c: EngineConfig, e: Engine, s: Snapshot, x: Readings): Engine
    requires 4 <= c.regime.window && s.raw.bids != [] && s.raw.asks != []
  {
    e.(detector := DetectorAfter(c, e, x),
       counters := e.counters.(blocked := e.counters.blocked + if Reasons(c, e, s, x) == [] then 0 else 1))
  }

  ghost function Concluded(c: EngineConfig, e: Engine, reasons: seq<Q.BlockReason>, s: Snapshot, x: Readings,
                           forced: Option<T.Output>): (Engine, Report)
    requires C.ValidConfig(c.composite) && C.WellFormed(x.features)
  {
    var (score, smoother) := Scored(c, e, e.detector.regime, s, x);
    var (machine, output) := T.Step(c.machine, e.machine, MachineInput(score, reasons, x));
    (e.(smoother := smoother, machine := machine),
     Report(s, e.detector.regime, score, reasons, forced, output, e.index))
  }

  /** Regime, gate, score and machine, in this order, on a counted snapshot. */
  ghost function Evaluated(c: EngineConfig, e: Engine, s: Snapshot, x: Readings, forced: Option<T.Output>)
    : (Engine, Report)
    requires ValidConfig(c) && C.WellFormed(x.features) && s.raw.bids != [] && s.raw.asks != []
  {
    Concluded(c, Gated(c, e, s, x), Reasons(c, e, s, x), s, x, forced)
  }

  function JudgedBy(c: EngineConfig, e: Engine, raw: RawSnapshot): V.Verdict
    requires 0.0 < c.tickSize
  {
    V.Judge(c.validation, c.tickSize, e.history, raw)
  }

  /** An accepted snapshot finds a gap pending, old or its own. */
  predicate Recovers(c: EngineConfig, e: Engine, raw: RawSnapshot)
    requires 0.0 < c.tickSize
  {
    var v := JudgedBy(c, e, raw);
    v.Accepted? && (e.pending || v.gap)
  }

  /** The state in which an accepted snapshot is evaluated. */
  function Prepared(c: EngineConfig, e: Engine, raw: RawSnapshot, x: Readings): Engine
    requires 0.0 < c.tickSize && JudgedBy(c, e, raw).Accepted?
  {
    var v := JudgedBy(c, e, raw);
    var judged := e.(history := V.History(c.validation, c.tickSize, e.history, raw));
    var noted := if v.gap then Noted(judged, x.noteMs) else judged;
    Counted(c, if noted.pending then Recovered(noted) else noted, v.snapshot)
  }

  ghost function Processed(c: EngineConfig, e: Engine, raw: RawSnapshot, x: Readings): (Engine, Option<Report>)
    requires ValidConfig(c) && C.WellFormed(x.features)
  {
    var v := JudgedBy(c, e, raw);
    if v.Rejected? then
      var counted := e.(counters := e.counters.(rejected := e.counters.rejected + 1));
      (if v.gap then Noted(counted, x.noteMs) else counted, None)
    else
      AcceptedIsTwoSided(c, e, raw);
      var forced := if Recovers(c, e, raw) then Some(T.Flattened(e.machine).1) else None;
      var (after, report) := Evaluated(c, Prepared(c, e, raw, x), v.snapshot, x, forced);
      (after, Some(report))
  }

  lemma AcceptedIsTwoSided(c: EngineConfig, e: Engine, raw: RawSnapshot)
    requires 0.0 < c.tickSize && JudgedBy(c, e, raw).Accepted?
    ensures var s := JudgedBy(c, e, raw).snapshot; s.raw == raw && s.raw.bids != [] && s.raw.asks != []
  {
    hide V.LadderFault, V.Duplicate, V.Discontinuous, V.TemporalFault;
  }

  // -- the engine ---------------------------------------------------------------

  class SymbolEngine {
    const config: EngineConfig
    const validator: V.SnapshotValidator
    const stats: SharedStatistics
    const detector: R.RegimeDetector
    const scorer: C.CompositeScorer
    const machine: T.TradingStateMachine
    var pending: bool
    var lastGapMs: Option<real>
    var index: nat
    var counters: Counters

    ghost predicate Configured()
      reads this
    {
      && ValidConfig(config)
      && validator.config == config.validation && validator.tickSize == config.tickSize
      && stats.window == config.regime.window && stats.warmupSnapshots == config.warmupSnapshots
      && detector.config == config.regime
      && scorer.config == config.composite
      && scorer.smoother.decay == config.decay && scorer.smoother.maxDt == config.maxDt
      && machine.config == config.machine
    }

    ghost predicate Valid()
      reads this, validator, stats, stats.midTicks, stats.midTicks.data, stats.midDeltaAbs, stats.midDeltaAbs.buffer,
            stats.midDeltaAbs.buffer.data, detector, scorer, scorer.smoother, machine
    {
      Configured() && stats.Valid() && scorer.Valid()
    }

    ghost function Now(): Engine
      reads this, validator, stats, detector, scorer.smoother, machine
    {
      Engine(validator.previous, pending, lastGapMs, stats.run, detector.Now(), scorer.smoother.State(), machine.Now(),
             index, counters)
    }

    constructor (config: EngineConfig)
      requires ValidConfig(config)
      ensures Valid() && Now() == CREATED && this.config == config
    {
      this.config := config;
      validator := new V.SnapshotValidator(config.validation, config.tickSize);
      stats := new SharedStatistics(config.regime.window, config.warmupSnapshots);
      detector := new R.RegimeDetector(config.regime);
      scorer := new C.CompositeScorer(config.composite, config.decay, config.maxDt);
      machine := new T.TradingStateMachine(config.machine);
      pending, lastGapMs, index, counters := false, None, 0, Counters(0, 0, 0, 0, 0);
    }

    /** Called by the feed thread. */
    method NotifyGap(atMs: real)
      requires Valid()
      modifies this
      ensures Valid() && Now() == Noted(old(Now()), atMs)
    {
      NoteGap(atMs);
    }

    method NoteGap(atMs: real)
      requires Valid()
      modifies this
      ensures Valid() && Now() == Noted(old(Now()), atMs)
    {
      counters := counters.(gaps := counters.gaps + 1);
      lastGapMs := Some(atMs);
      pending := true;
    }

    method Process(raw: RawSnapshot, x: Readings) returns (r: Option<Report>)
      requires Valid() && C.WellFormed(x.features)
      modifies this, validator, stats, stats.midTicks, stats.midTicks.data, stats.midDeltaAbs, stats.midDeltaAbs.buffer,
               stats.midDeltaAbs.buffer.data, detector, scorer.smoother, machine
      ensures Valid()
      ensures (Now(), r) == Processed(config, old(Now()), raw, x)
    {
      hide SharedStatistics.Valid, C.CompositeScorer.Valid, Evaluated, V.Judge, T.Flattened, C.WellFormed;
      ghost var before := Now();
      var verdict := validator.Validate(raw);
      if verdict.Rejected? {
        counters := counters.(rejected := counters.rejected + 1);
        if verdict.gap {
          NoteGap(x.noteMs);
        }
        return None;
      }
      AcceptedIsTwoSided(config, before, raw);
      if verdict.gap {
        NoteGap(x.noteMs);
      }
      var forced := ConsumePendingGap();
      var report := EvaluateSnapshot(verdict.snapshot, x, forced);
      r := Some(report);
    }

    method ConsumePendingGap() returns (forced: Option<T.Output>)
      requires Valid()
      modifies this, validator, stats, stats.midTicks, stats.midDeltaAbs, stats.midDeltaAbs.buffer, detector,
               scorer.smoother, machine
      ensures Valid()
      ensures Now() == if old(pending) then Recovered(old(Now())) else old(Now())
      ensures forced == if old(pending) then Some(T.Flattened(old(machine.Now())).1) else None
    {
      hide SharedStatistics.Valid, T.Flattened;
      if !pending {
        return None;
      }
      pending := false;
      var output := machine.ForceFlat();
      ResetEstimators();
      counters := counters.(resets := counters.resets + 1);
      forced := Some(output);
    }

    method ResetEstimators()
      requires Valid()
      modifies validator, stats, stats.midTicks, stats.midDeltaAbs, stats.midDeltaAbs.buffer, detector, scorer.smoother
      ensures Valid()
      ensures Now() == old(Now()).(history := None, run := [], detector := R.FRESH, smoother := EMPTY_EMA)
    {
      hide SharedStatistics.Valid, ValidConfig;
      stats.Reset();
      detector.Reset();
      scorer.Reset();
      validator.Reset();
    }

    method EvaluateSnapshot(s: Snapshot, x: Readings, forced: Option<T.Output>) returns (report: Report)
      requires Valid() && C.WellFormed(x.features) && s.raw.bids != [] && s.raw.asks != []
      modifies this, stats, stats.midTicks, stats.midTicks.data, stats.midDeltaAbs, stats.midDeltaAbs.buffer,
               stats.midDeltaAbs.buffer.data, detector, scorer.smoother, machine
      ensures Valid()
      ensures (Now(), report) == Evaluated(config, Counted(config, old(Now()), s), s, x, forced)
    {
      assert ValidConfig(config);
      hide Valid, Now, Gated, Concluded, Reasons, C.WellFormed;
      CountSnapshot(s);
      var regime, reasons := GateSnapshot(s, x);
      report := Conclude(regime, reasons, s, x, forced);
    }

    /** Regime and gate, on statistics already updated. */
    method GateSnapshot(s: Snapshot, x: Readings) returns (regime: R.Regime, reasons: seq<Q.BlockReason>)
      requires Valid() && s.raw.bids != [] && s.raw.asks != []
      modifies this`counters, detector
      ensures Valid()
      ensures Now() == Gated(config, old(Now()), s, x) && regime == Now().detector.regime
      ensures reasons == Reasons(config, old(Now()), s, x)
    {
      hide Valid, Now, DetectorAfter, Q.BlockReasons;
      regime := DetectRegime(x);
      reasons := Gate(s, x);
    }

    method Conclude(regime: R.Regime, reasons: seq<Q.BlockReason>, s: Snapshot, x: Readings, forced: Option<T.Output>)
      returns (report: Report)
      requires Valid() && C.WellFormed(x.features) && regime == Now().detector.regime && index == Now().index
      modifies scorer.smoother, machine
      ensures Valid()
      ensures (Now(), report) == Concluded(config, old(Now()), reasons, s, x, forced)
    {
      hide Valid, Now, Scored, T.Step, MachineInput;
      var score, output := Act(regime, reasons, s, x);
      report := Report(s, regime, score, reasons, forced, output, index);
    }

    /** Scores the snapshot and drives the machine with it. */
    method Act(regime: R.Regime, reasons: seq<Q.BlockReason>, s: Snapshot, x: Readings)
      returns (score: C.CompositeScore, output: T.Output)
      requires Valid() && C.WellFormed(x.features)
      modifies scorer.smoother, machine
      ensures Valid()
      ensures var e := old(Now());
        var (r, smoother) := Scored(config, e, regime, s, x);
        var (after, o) := T.Step(config.machine, e.machine, MachineInput(r, reasons, x));
        score == r && output == o && Now() == e.(smoother := smoother, machine := after)
    {
      hide Valid, Now, Scored, T.Step, MachineInput;
      score := ScoreSnapshot(regime, s, x);
      output := Drive(MachineInput(score, reasons, x));
    }

    method CountSnapshot(s: Snapshot)
      requires Valid()
      modifies this, stats, stats.midTicks, stats.midTicks.data, stats.midDeltaAbs, stats.midDeltaAbs.buffer,
               stats.midDeltaAbs.buffer.data
      ensures Valid()
      ensures Now() == Counted(config, old(Now()), s) && index == Now().index
    {
      hide SharedStatistics.Valid;
      counters := counters.(accepted := counters.accepted + 1);
      index := index + 1;
      stats.UpdatePre(s.mid / config.tickSize, s.isFirst);
    }

    method DetectRegime(x: Readings) returns (regime: R.Regime)
      requires Valid()
      modifies detector
      ensures Valid()
      ensures Now() == old(Now()).(detector := DetectorAfter(config, old(Now()), x)) && regime == Now().detector.regime
    {
      hide Efficiency, IsEfficiency, R.Hysteresis, R.Classify, MomentumSign;
      var efficiency := stats.EfficiencyRatio(config.regime.window);
      assert stats.snapshots == |stats.run|;
      regime := detector.Update(R.Reading(stats.snapshots, x.trendReady, efficiency, x.volatility, x.trend,
                                          MomentumSign(x.features)));
    }

    method Gate(s: Snapshot, x: Readings) returns (reasons: seq<Q.BlockReason>)
      requires Valid() && s.raw.bids != [] && s.raw.asks != []
      modifies this`counters
      ensures Valid()
      ensures reasons == Reasons(config, old(Now()), s, x)
      ensures var e := old(Now());
        Now() == e.(counters := e.counters.(blocked := e.counters.blocked + if reasons == [] then 0 else 1))
    {
      hide Q.BlockReasons, SharedStatistics.Valid;
      assert stats.snapshots == |stats.run| by {
        StatisticsCount();
      }
      var msSinceGap := if lastGapMs.Some? then Some(x.gateMs - lastGapMs.value) else None;
      var view := Q.MarketView(stats.snapshots, stats.warmupSnapshots, s.spreadTicks, s.raw.bids, s.raw.asks,
                               x.relativeDepth, x.depthReferenceReady, msSinceGap);
      var report := Q.Evaluate(config.quality, view);
      reasons := report.value.reasons;
      if !report.value.tradable {
        counters := counters.(blocked := counters.blocked + 1);
      }
    }

    lemma StatisticsCount()
      requires Valid()
      ensures stats.snapshots == |stats.run|
    {
    }

    method ScoreSnapshot(regime: R.Regime, s: Snapshot, x: Readings) returns (score: C.CompositeScore)
      requires Valid() && C.WellFormed(x.features)
      modifies scorer.smoother
      ensures Valid()
      ensures var (r, smoother) := Scored(config, old(Now()), regime, s, x);
        score == r && Now() == old(Now()).(smoother := smoother)
    {
      hide SharedStatistics.Valid, C.Assess, C.WeightsFor, C.WellFormed;
      score := scorer.Score(x.features, regime, s.dtMs);
    }

    method Drive(i: T.Input) returns (output: T.Output)
      requires Valid()
      modifies machine
      ensures Valid()
      ensures var (after, o) := T.Step(config.machine, old(Now()).machine, i);
        output == o && Now() == old(Now()).(machine := after)
    {
      hide SharedStatistics.Valid, T.Step;
      output := machine.Update(i);
    }
  }
}
