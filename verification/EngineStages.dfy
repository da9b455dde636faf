/** What each stage of the engine is shown of a snapshot, spelled out from the
    messages and readings of the run: the gate, the regime detector, the scorer
    and the trading machine. */
module EngineStages {
  import opened Prelude
  import opened MarketRecords
  import opened TimeAwareEmas
  import opened SharedStatisticsModel
  import opened SymbolEngines
  import opened EngineRuns
  import V = SnapshotValidation
  import Q = MarketQuality
  import R = RegimeDetection
  import C = Composite
  import T = TradingMachine
  import M = TradingRuns

  // -- what a run has seen ---------------------------------------------------------

  /** Snapshots accepted among the first k events, counted from the last restart. */
  ghost function SinceReset(c: EngineConfig, es: seq<Event>, k: nat): nat
    requires ValidConfig(c) && AllWellFormed(es) && k <= |es|
  {
    if k == 0 then 0
    else if Restarts(c, es, k - 1) then 1
    else SinceReset(c, es, k - 1) + if Accepts(c, es, k - 1) then 1 else 0
  }

  /** Event k announces a gap, or shows one to the validator. */
  ghost predicate ShowsGap(c: EngineConfig, es: seq<Event>, k: nat)
    requires ValidConfig(c) && AllWellFormed(es) && k < |es|
  {
    es[k].Notify? || JudgedBy(c, At(c, es, k), es[k].raw).gap
  }

  /** When the latest gap among the first k events was announced or detected. */
  ghost function LastGap(c: EngineConfig, es: seq<Event>, k: nat): Option<real>
    requires ValidConfig(c) && AllWellFormed(es) && k <= |es|
  {
    if k == 0 then None
    else if !ShowsGap(c, es, k - 1) then LastGap(c, es, k - 1)
    else Some(if es[k - 1].Notify? then es[k - 1].atMs else es[k - 1].readings.noteMs)
  }

  lemma {:induction false} RunIsCounted(c: EngineConfig, es: seq<Event>, k: nat)
    requires ValidConfig(c) && AllWellFormed(es) && k <= |es|
    ensures |At(c, es, k).run| == SinceReset(c, es, k)
  {
    hide Processed, V.Judge;
    if k > 0 {
      RunIsCounted(c, es, k - 1);
      var e, ev := At(c, es, k - 1), es[k - 1];
      if AcceptedBy(c, e, ev) {
        AcceptedStep(c, e, ev.raw, ev.readings);
      } else if ev.Feed? {
        RejectedStep(c, e, ev.raw, ev.readings);
      }
    }
  }

  lemma {:induction false} GapIsRemembered(c: EngineConfig, es: seq<Event>, k: nat)
    requires ValidConfig(c) && AllWellFormed(es) && k <= |es|
    ensures At(c, es, k).lastGapMs == LastGap(c, es, k)
  {
    hide Processed, V.Judge, ValidConfig;
    if k > 0 {
      GapIsRemembered(c, es, k - 1);
      if es[k - 1].Feed? {
        GapStep(c, At(c, es, k - 1), es[k - 1].raw, es[k - 1].readings);
      }
    }
  }

  lemma GapStep(c: EngineConfig, e: Engine, raw: RawSnapshot, x: Readings)
    requires ValidConfig(c) && C.WellFormed(x.features)
    ensures Processed(c, e, raw, x).0.lastGapMs == if JudgedBy(c, e, raw).gap then Some(x.noteMs) else e.lastGapMs
  {
    hide V.Judge, V.History, T.Step, Q.BlockReasons, C.Assess, C.WeightsFor, DetectorAfter, MachineInput;
  }

  // -- the gate ---------------------------------------------------------------------

  /** The market of an accepted snapshot, as the gate has to see it: its own
      ladders and spread in ticks, the count since the last restart, and the time
      since the latest gap, the one it shows itself included. */
  ghost function Market(c: EngineConfig, es: seq<Event>, k: nat): Q.MarketView
    requires ValidConfig(c) && AllWellFormed(es) && k < |es| && Accepts(c, es, k)
    ensures Market(c, es, k).bids != [] && Market(c, es, k).asks != []
  {
    var raw, x, gap := es[k].raw, es[k].readings, LastGap(c, es, k + 1);
    AcceptedIsTwoSided(c, At(c, es, k), raw);
    Q.MarketView(SinceReset(c, es, k + 1), c.warmupSnapshots,
                 SafeDiv(raw.asks[0].price - raw.bids[0].price, c.tickSize), raw.bids, raw.asks, x.relativeDepth,
                 x.depthReferenceReady,
                 if gap.Some? then Some(x.gateMs - gap.value) else None)
  }

  ghost predicate Blocked(c: EngineConfig, es: seq<Event>, k: nat, reason: Q.BlockReason)
    requires ValidConfig(c) && AllWellFormed(es) && k < |es| && Accepts(c, es, k)
  {
    Q.Blocks(c.quality, Market(c, es, k), reason)
  }

  /** What the gate is given is the market as it has to see it. */
  lemma MarketIsSeen(c: EngineConfig, es: seq<Event>, k: nat)
    requires ValidConfig(c) && AllWellFormed(es) && k < |es| && Accepts(c, es, k)
    ensures var (e, raw, x) := (At(c, es, k), es[k].raw, es[k].readings);
      View(c, Prepared(c, e, raw, x), JudgedBy(c, e, raw).snapshot, x) == Market(c, es, k)
  {
    hide Processed, V.Judge, Prepared, SinceReset, LastGap, Restarts;
    var e, raw, x := At(c, es, k), es[k].raw, es[k].readings;
    RunIsCounted(c, es, k + 1);
    GapIsRemembered(c, es, k + 1);
    PreparedIsCounted(c, e, raw, x);
    SnapshotIsDerived(c, e, raw);
    assert At(c, es, k + 1) == Processed(c, e, raw, x).0;
  }

  lemma PreparedIsCounted(c: EngineConfig, e: Engine, raw: RawSnapshot, x: Readings)
    requires ValidConfig(c) && C.WellFormed(x.features) && JudgedBy(c, e, raw).Accepted?
    ensures var (before, after) := (Prepared(c, e, raw, x), Processed(c, e, raw, x).0);
      && before.run == after.run && before.lastGapMs == after.lastGapMs
      && before.index == after.index
  {
    hide V.Judge, V.History, T.Step, Q.BlockReasons, C.Assess, C.WeightsFor, DetectorAfter, MachineInput;
  }

  lemma SnapshotIsDerived(c: EngineConfig, e: Engine, raw: RawSnapshot)
    requires 0.0 < c.tickSize && JudgedBy(c, e, raw).Accepted?
    ensures var (v, p) := (JudgedBy(c, e, raw), e.history);
      var s, continues := v.snapshot, p.Some? && !v.gap;
      && s.raw == raw && raw.bids != [] && raw.asks != [] && s.isFirst == !continues
      && s.spreadTicks == SafeDiv(raw.asks[0].price - raw.bids[0].price, c.tickSize)
      && s.dtMs == (if continues then (raw.exchangeTimestampMs - p.value.exchangeTimestampMs) as real else 0.0)
      && s.deltaVolume == (if continues then raw.volumeTradedToday - p.value.volumeTradedToday else 0)
  {
    hide V.LadderFault, V.Duplicate, V.Discontinuous, V.TemporalFault;
  }

  // -- the trading machine ----------------------------------------------------------

  /** The machine is shown the score of the report, the verdict of the gate on
      that market, and the readings of the snapshot. */
  ghost predicate Shown(q: Q.QualityConfig, market: Q.MarketView, score: C.CompositeScore, x: Readings, i: T.Input)
    requires market.bids != [] && market.asks != []
  {
    && i.composite == T.CompositeResult(score.valid, score.smoothed, score.confidence)
    && (i.tradable <==> forall r :: !Q.Blocks(q, market, r))
    && (forall r :: r in i.reasons <==> Q.Blocks(q, market, r))
    && (i.ltp.None? <==> "ltp_confirmation" !in x.features.at)
    && (i.ltp.Some? ==>
          var f := x.features.at["ltp_confirmation"]; i.ltp.value == T.LtpFeature(f.valid, f.value))
    && i.nowMs == x.nowMs && i.threshold == x.threshold
    && i.stopHit == x.stopHit && i.targetHit == x.targetHit
    && i.costCleared == x.costCleared && i.filledQuantity == x.filledQuantity
  }

  lemma InputIsAsShown(q: Q.QualityConfig, market: Q.MarketView, score: C.CompositeScore, x: Readings)
    requires market.bids != [] && market.asks != []
    ensures Shown(q, market, score, x, MachineInput(score, Q.BlockReasons(q, market), x))
  {
    Q.BlockReasonsExactly(q, market);
    hide Q.BlockReasons, Q.Blocks;
    var reasons := Q.BlockReasons(q, market);
    assert reasons == [] || reasons[0] in reasons;
  }

  /** In every engine run an accepted snapshot takes the machine, a new one after
      a restart, through one step on what it is to be shown. */
  lemma MachineIsShown(c: EngineConfig, es: seq<Event>, k: nat) returns (i: T.Input)
    requires ValidConfig(c) && AllWellFormed(es) && k < |es| && Accepts(c, es, k)
    ensures Reported(c, es, k).Some?
    ensures Shown(c.quality, Market(c, es, k), Reported(c, es, k).value.score, es[k].readings, i)
    ensures var m := if Restarts(c, es, k) then T.START else At(c, es, k).machine;
      (At(c, es, k + 1).machine, Reported(c, es, k).value.output) == T.Step(c.machine, m, i)
  {
    var e, raw, x := At(c, es, k), es[k].raw, es[k].readings;
    i := InputFrom(c, e, raw, x);
    MachineStage(c, e, raw, x);
    MarketIsSeen(c, es, k);
    InputIsShown(c, e, raw, x);
    InputIsAsShown(c.quality, Market(c, es, k), Reported(c, es, k).value.score, x);
    hide Processed, JudgedBy, T.Step, Q.BlockReasons, Shown, Market, Prepared, InputFrom, ValidConfig;
  }

  lemma InputIsShown(c: EngineConfig, e: Engine, raw: RawSnapshot, x: Readings)
    requires ValidConfig(c) && C.WellFormed(x.features) && JudgedBy(c, e, raw).Accepted?
    ensures Processed(c, e, raw, x).1.Some?
    ensures var (i, s) := (InputFrom(c, e, raw, x), JudgedBy(c, e, raw).snapshot);
      && s.raw.bids != [] && s.raw.asks != []
      && i == MachineInput(Processed(c, e, raw, x).1.value.score,
                           Q.BlockReasons(c.quality, View(c, Prepared(c, e, raw, x), s, x)), x)
  {
    hide V.Judge, V.History, T.Step, Q.BlockReasons, C.Assess, C.WeightsFor, DetectorAfter, C.WellFormed;
    AcceptedIsTwoSided(c, e, raw);
  }

  /** What a watch or an entry in direction d says about the market, the score and
      the readings it rests on. */
  ghost predicate Grounded(c: EngineConfig, market: Q.MarketView, score: C.CompositeScore, x: Readings, d: T.Direction,
                           entered: bool)
    requires market.bids != [] && market.asks != []
  {
    var strength := if d == T.Long then score.smoothed else -score.smoothed;
    && (forall r :: !Q.Blocks(c.quality, market, r))
    && score.valid && 0.0 < strength && x.threshold.watch <= strength
    && c.machine.minWatchConfidence <= score.confidence
    && (entered ==>
          && x.threshold.entry <= strength && c.machine.minEntryConfidence <= score.confidence && x.costCleared
          && (c.machine.requireLtpConfirmation ==>
                && "ltp_confirmation" in x.features.at && x.features.at["ltp_confirmation"].valid
                && var tape := x.features.at["ltp_confirmation"].value;
                -c.machine.oppositionThreshold < if d == T.Long then tape else -tape))
  }

  /** No watch is armed or kept and no position entered on a blocked market. The
      report's own score is usable, points the way taken and reaches the
      snapshot's threshold for it; for an entry so does its confidence, the traded
      price does not object, and the costs are cleared. */
  lemma EntryNeedsOpenGate(c: EngineConfig, es: seq<Event>, k: nat, d: T.Direction)
    requires ValidConfig(c) && AllWellFormed(es) && k < |es| && Accepts(c, es, k) && d != T.Flat
    requires Reported(c, es, k).Some?
    requires var o := Reported(c, es, k).value.output;
      o.current == T.WatchState(d) || (M.Entered(o) && o.position.value.direction == d)
    ensures var report := Reported(c, es, k).value;
      Grounded(c, Market(c, es, k), report.score, es[k].readings, d, M.Entered(report.output))
  {
    var i := MachineIsShown(c, es, k);
    AlwaysWarmedUp(c, es, k);
    FreshIsWarmedUp(c);
    var m := if Restarts(c, es, k) then T.START else At(c, es, k).machine;
    assert M.Consistent(c.machine, m);
    GroundedAsShown(c, Market(c, es, k), Reported(c, es, k).value.score, es[k].readings, m, i, d);
  }

  lemma GroundedAsShown(c: EngineConfig, market: Q.MarketView, score: C.CompositeScore, x: Readings, m: T.Machine,
                        i: T.Input, d: T.Direction)
    requires T.ValidConfig(c.machine) && M.Consistent(c.machine, m) && d != T.Flat
    requires market.bids != [] && market.asks != [] && Shown(c.quality, market, score, x, i)
    requires var o := T.Step(c.machine, m, i).1;
      o.current == T.WatchState(d) || (M.Entered(o) && o.position.value.direction == d)
    ensures Grounded(c, market, score, x, d, M.Entered(T.Step(c.machine, m, i).1))
  {
    WatchOrEntry(c.machine, m, i, d);
    hide T.Step, M.Consistent, M.Entered, Q.Blocks;
  }

  /** Nothing more is needed either. A machine in Neutral arms a watch of d exactly
      on such ground, unless the last exit blocks d; and one whose watch of d lacks
      a single confirmation enters exactly on ground for an entry, unless the watch
      has expired. */
  lemma GroundIsEnough(c: EngineConfig, es: seq<Event>, k: nat, d: T.Direction)
    requires ValidConfig(c) && AllWellFormed(es) && k < |es| && Accepts(c, es, k) && !Restarts(c, es, k)
    requires d != T.Flat && Reported(c, es, k).Some?
    ensures var (report, m, x) := (Reported(c, es, k).value, At(c, es, k).machine, es[k].readings);
      m.state == T.Neutral ==>
        (report.output.current == T.WatchState(d) <==>
           && Grounded(c, Market(c, es, k), report.score, x, d, false)
           && !(c.machine.requireZeroCrossRearm && m.rearmBlockSign == d.Signum()))
    ensures var (report, m, x) := (Reported(c, es, k).value, At(c, es, k).machine, es[k].readings);
      m.state == T.WatchState(d) && m.confirmations == c.machine.entryConfirmations - 1
      && !(c.machine.requireZeroCrossRearm && m.rearmBlockSign == d.Signum()) ==>
        (M.Entered(report.output) && report.output.position.value.direction == d <==>
           Grounded(c, Market(c, es, k), report.score, x, d, true) && x.nowMs <= m.watchDeadlineMs)
  {
    var i := MachineIsShown(c, es, k);
    AlwaysWarmedUp(c, es, k);
    var m := At(c, es, k).machine;
    assert M.Consistent(c.machine, m);
    GroundIsShown(c, Market(c, es, k), Reported(c, es, k).value.score, es[k].readings, i, d);
    ArmsOrEnters(c.machine, m, i, d);
  }

  /** Grounds to leave a position of direction d held for so long, the stop aside. */
  ghost predicate Uneasy(c: EngineConfig, market: Q.MarketView, score: C.CompositeScore, x: Readings, d: T.Direction,
                         heldMs: real)
    requires market.bids != [] && market.asks != []
  {
    var strength := if !score.valid then 0.0 else if d == T.Long then score.smoothed else -score.smoothed;
    || (c.machine.useTarget && x.targetHit)
    || c.machine.maxHoldMs <= heldMs
    || strength <= -(x.threshold.exit * c.machine.reversalRatio)
    || (if score.valid then score.confidence else 0.0) < c.machine.exitConfidence
    || (c.machine.exitOnQualityLoss && exists r ::
          r in {Q.SpreadTooWide, Q.BookTooThin, Q.LiquidityBelowThreshold, Q.FeedGap} && Q.Blocks(c.quality, market, r))
  }

  /** In an engine run without a restart there, a held position survives an
      accepted snapshot exactly when its stop is unhit and it is inside its minimum
      hold or has no other ground to be left. */
  lemma SurvivesOnGround(c: EngineConfig, es: seq<Event>, k: nat)
    requires ValidConfig(c) && AllWellFormed(es) && k < |es| && Accepts(c, es, k) && !Restarts(c, es, k)
    requires At(c, es, k).machine.position.Some? && Reported(c, es, k).Some?
    ensures var (p, report, x) := (At(c, es, k).machine.position.value, Reported(c, es, k).value, es[k].readings);
      report.output.position.Some? <==>
        && !x.stopHit
        && (x.nowMs - p.entryMs < c.machine.minHoldMs
            || !Uneasy(c, Market(c, es, k), report.score, x, p.direction, x.nowMs - p.entryMs))
  {
    hide Apply, At, JudgedBy, T.Step, M.WantsOut, Uneasy, Shown, Market, Restarts, M.Consistent;
    var i := MachineIsShown(c, es, k);
    var m, score, x := At(c, es, k).machine, Reported(c, es, k).value.score, es[k].readings;
    MachineIsConsistent(c, es, k);
    assert i.stopHit == x.stopHit && i.nowMs == x.nowMs by {
      SameReadings(c.quality, Market(c, es, k), score, x, i);
    }
    UneasyAsShown(c, Market(c, es, k), score, x, i, m.position.value);
    KeptOrLeft(c.machine, m, i);
  }

  lemma MachineIsConsistent(c: EngineConfig, es: seq<Event>, k: nat)
    requires ValidConfig(c) && AllWellFormed(es) && k <= |es|
    ensures M.Consistent(c.machine, At(c, es, k).machine)
    ensures var p := At(c, es, k).machine.position; p.Some? ==> p.value.direction != T.Flat
  {
    AlwaysWarmedUp(c, es, k);
    hide At;
  }

  lemma SameReadings(q: Q.QualityConfig, market: Q.MarketView, score: C.CompositeScore, x: Readings, i: T.Input)
    requires market.bids != [] && market.asks != [] && Shown(q, market, score, x, i)
    ensures i.stopHit == x.stopHit && i.nowMs == x.nowMs
  {
    hide Q.Blocks;
  }

  lemma KeptOrLeft(c: T.MachineConfig, m: T.Machine, i: T.Input)
    requires T.ValidConfig(c) && M.Consistent(c, m) && m.position.Some?
    ensures var p := m.position.value;
      T.Step(c, m, i).1.position.Some? <==>
        !i.stopHit && (i.nowMs - p.entryMs < c.minHoldMs || !M.WantsOut(c, p, i))
  {
    hide T.Critical;
    M.HeldStep(c, m, i);
    M.StepReports(c, m, M.Tick(i));
    assert M.Apply(c, m, M.Tick(i)) == T.Step(c, m, i);
    hide T.Step, M.WantsOut, M.Consistent;
  }

  lemma UneasyAsShown(c: EngineConfig, market: Q.MarketView, score: C.CompositeScore, x: Readings, i: T.Input,
                      p: T.Position)
    requires market.bids != [] && market.asks != [] && Shown(c.quality, market, score, x, i) && p.direction != T.Flat
    ensures M.WantsOut(c.machine, p, i) <==> Uneasy(c, market, score, x, p.direction, x.nowMs - p.entryMs)
  {
    assert (exists r :: r in i.reasons && T.Critical(r)) <==>
      (exists r :: r in {Q.SpreadTooWide, Q.BookTooThin, Q.LiquidityBelowThreshold, Q.FeedGap}
                   && Q.Blocks(c.quality, market, r)) by {
      NeverAPriceGap(c.quality, market);
      hide Q.Blocks;
    }
    hide Q.Blocks, T.Critical;
  }

  lemma NeverAPriceGap(q: Q.QualityConfig, market: Q.MarketView)
    requires market.bids != [] && market.asks != []
    ensures !Q.Blocks(q, market, Q.PriceGap)
  {
  }

  lemma GroundIsShown(c: EngineConfig, market: Q.MarketView, score: C.CompositeScore, x: Readings, i: T.Input,
                      d: T.Direction)
    requires market.bids != [] && market.asks != [] && Shown(c.quality, market, score, x, i) && d != T.Flat
    ensures Grounded(c, market, score, x, d, false) <==> T.Watchable(c.machine, 0, d, i)
    ensures Grounded(c, market, score, x, d, true) <==> T.Watchable(c.machine, 0, d, i) && T.Confirms(c.machine, d, i)
  {
    hide Q.Blocks;
  }

  lemma ArmsOrEnters(c: T.MachineConfig, m: T.Machine, i: T.Input, d: T.Direction)
    requires T.ValidConfig(c) && M.Consistent(c, m) && d != T.Flat
    ensures var o, free := T.Step(c, m, i).1, !(c.requireZeroCrossRearm && m.rearmBlockSign == d.Signum());
      && (m.state == T.Neutral ==> (o.current == T.WatchState(d) <==> T.Watchable(c, 0, d, i) && free))
      && (m.state == T.WatchState(d) && m.confirmations == c.entryConfirmations - 1 && free ==>
            (M.Entered(o) && o.position.value.direction == d <==>
               T.Watchable(c, 0, d, i) && T.Confirms(c, d, i) && i.nowMs <= m.watchDeadlineMs))
  {
    hide T.Confirms, T.StepOpen;
  }

  lemma WatchOrEntry(c: T.MachineConfig, m: T.Machine, i: T.Input, d: T.Direction)
    requires T.ValidConfig(c) && M.Consistent(c, m) && d != T.Flat
    requires var o := T.Step(c, m, i).1;
      o.current == T.WatchState(d) || (M.Entered(o) && o.position.value.direction == d)
    ensures T.Watchable(c, 0, d, i)
    ensures M.Entered(T.Step(c, m, i).1) ==> T.Confirms(c, d, i)
  {
    assert M.Apply(c, m, M.Tick(i)) == T.Step(c, m, i);
    if M.Entered(T.Step(c, m, i).1) {
      M.EntryStep(c, m, M.Tick(i));
    }
  }

  // -- the regime -------------------------------------------------------------------

  /** The detector is shown the run since the last restart and the momentum
      feature, with its dead band. */
  ghost predicate Read(window: nat, run: seq<MidPoint>, x: Readings, r: R.Reading) {
    && r.snapshots == |run| && IsEfficiency(r.efficiency, run, window, window)
    && r.trend == x.trend && r.trendReady == x.trendReady && r.volatility == x.volatility
    && -1 <= r.momentumSign <= 1
    && (r.momentumSign == 1 <==>
          "momentum" in x.features.at && x.features.at["momentum"].valid && EPSILON < x.features.at["momentum"].value)
    && (r.momentumSign == -1 <==>
          "momentum" in x.features.at && x.features.at["momentum"].valid && x.features.at["momentum"].value < -EPSILON)
  }

  /** In every engine run an accepted snapshot takes the detector, a new one after a
      restart, through one label proposed from what it is to be shown, and the
      report carries the label held then. */
  lemma DetectorIsShown(c: EngineConfig, es: seq<Event>, k: nat) returns (r: R.Reading)
    requires ValidConfig(c) && AllWellFormed(es) && k < |es| && Accepts(c, es, k)
    ensures Read(c.regime.window, At(c, es, k + 1).run, es[k].readings, r) && r.snapshots == SinceReset(c, es, k + 1)
    ensures var d := if Restarts(c, es, k) then R.FRESH else At(c, es, k).detector;
      At(c, es, k + 1).detector == R.Hysteresis(c.regime, d, R.Classify(c.regime, r))
    ensures Reported(c, es, k).Some? && Reported(c, es, k).value.regime == At(c, es, k + 1).detector.regime
  {
    hide Processed, JudgedBy, Prepared, R.Classify, R.Hysteresis, RegimeReading, Read, SinceReset;
    var e, raw, x := At(c, es, k), es[k].raw, es[k].readings;
    r := RegimeReading(c, Prepared(c, e, raw, x).run, x);
    RunIsCounted(c, es, k + 1);
    PreparedIsCounted(c, e, raw, x);
    DetectorStage(c, e, raw, x);
    ReadingIsRead(c, At(c, es, k + 1).run, x);
  }

  lemma ReadingIsRead(c: EngineConfig, run: seq<MidPoint>, x: Readings)
    requires 4 <= c.regime.window
    ensures Read(c.regime.window, run, x, RegimeReading(c, run, x)) && RegimeReading(c, run, x).snapshots == |run|
  {
    EfficiencyIsNetOverPath(run, c.regime.window, c.regime.window);
    hide Efficiency, IsEfficiency;
  }

  lemma DetectorStage(c: EngineConfig, e: Engine, raw: RawSnapshot, x: Readings)
    requires ValidConfig(c) && C.WellFormed(x.features) && JudgedBy(c, e, raw).Accepted?
    ensures var (after, report) := Processed(c, e, raw, x);
      && report.Some? && report.value.regime == after.detector.regime
      && after.detector == R.Hysteresis(c.regime, if Recovers(c, e, raw) then R.FRESH else e.detector,
                                        R.Classify(c.regime, RegimeReading(c, Prepared(c, e, raw, x).run, x)))
  {
    hide V.Judge, V.History, T.Step, Q.BlockReasons, C.Assess, C.WeightsFor, MachineInput, R.Hysteresis, R.Classify,
         RegimeReading;
  }

  // -- the score --------------------------------------------------------------------

  /** The table of a regime: its own, else that of the unknown regime, else the first. */
  ghost predicate IsTableOf(c: C.CompositeConfig, regime: R.Regime, table: C.Weights) {
    && (regime in c.weights ==> table == c.weights[regime])
    && (regime !in c.weights && R.Unknown in c.weights ==> table == c.weights[R.Unknown])
    && (regime !in c.weights && R.Unknown !in c.weights ==> table == c.firstTable)
  }

  /** In every engine run an accepted snapshot is scored with the table of the
      regime reported with it, over the exchange time since the snapshot it
      continues, by the smoother of the run, a new one after a restart. */
  lemma ScorerIsShown(c: EngineConfig, es: seq<Event>, k: nat) returns (table: C.Weights)
    requires ValidConfig(c) && AllWellFormed(es) && k < |es| && Accepts(c, es, k)
    ensures Reported(c, es, k).Some? && IsTableOf(c.composite, Reported(c, es, k).value.regime, table)
    ensures var (e, raw, x) := (At(c, es, k), es[k].raw, es[k].readings);
      var dt := if e.history.None? || JudgedBy(c, e, raw).gap then 0.0
                else (raw.exchangeTimestampMs - e.history.value.exchangeTimestampMs) as real;
      (Reported(c, es, k).value.score, At(c, es, k + 1).smoother)
      == C.Assess(c.composite, c.decay, c.maxDt, x.features, table,
                  if Restarts(c, es, k) then EMPTY_EMA else e.smoother, dt)
  {
    hide Processed, JudgedBy, C.Assess;
    var e, raw, x := At(c, es, k), es[k].raw, es[k].readings;
    ScoreStage(c, e, raw, x);
    SnapshotIsDerived(c, e, raw);
    table := C.WeightsFor(c.composite, Reported(c, es, k).value.regime);
  }

  lemma ScoreStage(c: EngineConfig, e: Engine, raw: RawSnapshot, x: Readings)
    requires ValidConfig(c) && C.WellFormed(x.features) && JudgedBy(c, e, raw).Accepted?
    ensures var (after, report) := Processed(c, e, raw, x);
      && report.Some?
      && (report.value.score, after.smoother)
         == C.Assess(c.composite, c.decay, c.maxDt, x.features, C.WeightsFor(c.composite, report.value.regime),
                     if Recovers(c, e, raw) then EMPTY_EMA else e.smoother, JudgedBy(c, e, raw).snapshot.dtMs)
  {
    hide V.Judge, V.History, T.Step, Q.BlockReasons, C.Assess, C.WeightsFor, MachineInput, DetectorAfter;
  }

  // -- the counters -----------------------------------------------------------------

  /** What each event adds to the counters, and what the report adds to the rest. */
  lemma CountersMove(c: EngineConfig, es: seq<Event>, k: nat)
    requires ValidConfig(c) && AllWellFormed(es) && k < |es|
    ensures var (before, after) := (At(c, es, k).counters, At(c, es, k + 1).counters);
      && after.accepted == before.accepted + (if Accepts(c, es, k) then 1 else 0)
      && after.rejected == before.rejected + (if es[k].Feed? && !Accepts(c, es, k) then 1 else 0)
      && after.gaps == before.gaps + (if ShowsGap(c, es, k) then 1 else 0)
      && after.resets == before.resets + (if Restarts(c, es, k) then 1 else 0)
      && (Accepts(c, es, k) && (exists r :: Blocked(c, es, k, r)) ==> after.blocked == before.blocked + 1)
      && (!Accepts(c, es, k) || (forall r :: !Blocked(c, es, k, r)) ==> after.blocked == before.blocked)
    ensures Reported(c, es, k).Some? <==> Accepts(c, es, k)
    ensures Accepts(c, es, k) ==>
      var report := Reported(c, es, k).value;
      && report.snapshot == JudgedBy(c, At(c, es, k), es[k].raw).snapshot
      && report.index == At(c, es, k + 1).index == At(c, es, k).index + 1
      && report.forced == if Restarts(c, es, k) then Some(T.Flattened(At(c, es, k).machine).1) else None
  {
    if es[k].Feed? {
      CounterStep(c, At(c, es, k), es[k].raw, es[k].readings);
      if Accepts(c, es, k) {
        MarketIsSeen(c, es, k);
        Q.BlockReasonsExactly(c.quality, Market(c, es, k));
        var reasons := Q.BlockReasons(c.quality, Market(c, es, k));
        hide Processed, V.Judge, Prepared, Market, Q.BlockReasons, Q.Blocks, T.Flattened;
        assert reasons == [] || reasons[0] in reasons;
        assert reasons != [] ==> Blocked(c, es, k, reasons[0]);
      }
    }
  }

  lemma CounterStep(c: EngineConfig, e: Engine, raw: RawSnapshot, x: Readings)
    requires ValidConfig(c) && C.WellFormed(x.features)
    ensures var (v, result) := (JudgedBy(c, e, raw), Processed(c, e, raw, x));
      var (before, after) := (e.counters, result.0.counters);
      && after.accepted == before.accepted + (if v.Accepted? then 1 else 0)
      && after.rejected == before.rejected + (if v.Accepted? then 0 else 1)
      && after.gaps == before.gaps + (if v.gap then 1 else 0)
      && after.resets == before.resets + (if Recovers(c, e, raw) then 1 else 0)
      && (v.Rejected? ==> after.blocked == before.blocked && result.1.None?)
      && (v.Accepted? ==>
            && v.snapshot.raw.bids != [] && v.snapshot.raw.asks != [] && result.1.Some?
            && after.blocked == before.blocked +
                 (if Q.BlockReasons(c.quality, View(c, Prepared(c, e, raw, x), v.snapshot, x)) == [] then 0 else 1)
            && result.1.value.snapshot == v.snapshot && result.1.value.index == result.0.index == e.index + 1
            && result.1.value.forced == if Recovers(c, e, raw) then Some(T.Flattened(e.machine).1) else None)
  {
    hide V.Judge, V.History, T.Step, T.Flattened, Q.BlockReasons, C.Assess, C.WeightsFor, MachineInput, DetectorAfter,
         View;
    if JudgedBy(c, e, raw).Accepted? {
      AcceptedIsTwoSided(c, e, raw);
    }
  }
}
