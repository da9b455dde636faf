/** Whole runs of one engine: snapshots and announced gaps in any order. */
module EngineRuns {
  import opened Prelude
  import opened MarketRecords
  import opened ReceivableBooks
  import opened TimeAwareEmas
  import opened SharedStatisticsModel
  import opened SymbolEngines
  import V = SnapshotValidation
  import Q = MarketQuality
  import R = RegimeDetection
  import C = Composite
  import T = TradingMachine
  import M = TradingRuns

  datatype Event = Feed(raw: RawSnapshot, readings: Readings) | Notify(atMs: real)

  predicate WellFormed(ev: Event) {
    ev.Feed? ==> C.WellFormed(ev.readings.features)
  }

  predicate AllWellFormed(es: seq<Event>) {
    forall k :: 0 <= k < |es| ==> WellFormed(es[k])
  }

  ghost function Apply(c: EngineConfig, e: Engine, ev: Event): (Engine, Option<Report>)
    requires ValidConfig(c) && WellFormed(ev)
  {
    match ev
    case Feed(raw, x) => Processed(c, e, raw, x)
    case Notify(atMs) => (Noted(e, atMs), None)
  }

  /** The engine after the first k events. */
  ghost function At(c: EngineConfig, es: seq<Event>, k: nat): Engine
    requires ValidConfig(c) && AllWellFormed(es) && k <= |es|
  {
    if k == 0 then CREATED else Apply(c, At(c, es, k - 1), es[k - 1]).0
  }

  /** What event k reported: something exactly for an accepted snapshot. */
  ghost function Reported(c: EngineConfig, es: seq<Event>, k: nat): Option<Report>
    requires ValidConfig(c) && AllWellFormed(es) && k < |es|
  {
    Apply(c, At(c, es, k), es[k]).1
  }

  predicate AcceptedBy(c: EngineConfig, e: Engine, ev: Event)
    requires 0.0 < c.tickSize
  {
    ev.Feed? && JudgedBy(c, e, ev.raw).Accepted?
  }

  ghost predicate Accepts(c: EngineConfig, es: seq<Event>, k: nat)
    requires ValidConfig(c) && AllWellFormed(es) && k < |es|
  {
    AcceptedBy(c, At(c, es, k), es[k])
  }

  /** Event k is an accepted snapshot that finds a gap pending. */
  ghost predicate Restarts(c: EngineConfig, es: seq<Event>, k: nat)
    requires ValidConfig(c) && AllWellFormed(es) && k < |es|
  {
    es[k].Feed? && Recovers(c, At(c, es, k), es[k].raw)
  }

  ghost predicate Uninterrupted(c: EngineConfig, es: seq<Event>, from: nat, to: nat)
    requires ValidConfig(c) && AllWellFormed(es) && to <= |es|
  {
    forall j :: from <= j < to ==> !Restarts(c, es, j)
  }

  // -- the machine inside the engine --------------------------------------------

  /** What the machine is shown of an accepted snapshot. */
  ghost function InputFrom(c: EngineConfig, e: Engine, raw: RawSnapshot, x: Readings): T.Input
    requires ValidConfig(c) && C.WellFormed(x.features) && JudgedBy(c, e, raw).Accepted?
  {
    AcceptedIsTwoSided(c, e, raw);
    InputOf(c, Prepared(c, e, raw, x), JudgedBy(c, e, raw).snapshot, x)
  }

  /** What one event puts the trading machine through. */
  ghost function MachineSteps(c: EngineConfig, e: Engine, ev: Event): seq<M.Event>
    requires ValidConfig(c) && WellFormed(ev)
  {
    if !AcceptedBy(c, e, ev) then []
    else
      var tick := M.Tick(InputFrom(c, e, ev.raw, ev.readings));
      if Recovers(c, e, ev.raw) then [M.Flatten, tick] else [tick]
  }

  ghost function MachineEvents(c: EngineConfig, es: seq<Event>, k: nat): seq<M.Event>
    requires ValidConfig(c) && AllWellFormed(es) && k <= |es|
  {
    if k == 0 then [] else MachineEvents(c, es, k - 1) + MachineSteps(c, At(c, es, k - 1), es[k - 1])
  }

  lemma {:induction false} PrefixDecides(c: T.MachineConfig, es: seq<M.Event>, more: seq<M.Event>, k: nat)
    requires k <= |es|
    ensures M.At(c, es + more, k) == M.At(c, es, k)
  {
    hide M.Apply;
    if k > 0 {
      PrefixDecides(c, es, more, k - 1);
    }
  }

  lemma StepFollows(c: EngineConfig, e: Engine, ev: Event)
    requires ValidConfig(c) && WellFormed(ev)
    ensures var (steps, after) := (MachineSteps(c, e, ev), Apply(c, e, ev).0);
      && |steps| <= 2
      && (|steps| == 0 ==> after.machine == e.machine)
      && (|steps| == 1 ==> after.machine == M.Apply(c.machine, e.machine, steps[0]).0)
      && (|steps| == 2 ==> steps[0] == M.Flatten && after.machine == M.Apply(c.machine, T.START, steps[1]).0)
    ensures var report := Apply(c, e, ev).1;
      && (report.Some? <==> AcceptedBy(c, e, ev))
      && (report.Some? ==>
            var (steps, m) := (MachineSteps(c, e, ev), if Recovers(c, e, ev.raw) then T.START else e.machine);
            && |steps| == (if Recovers(c, e, ev.raw) then 2 else 1)
            && report.value.output == M.Apply(c.machine, m, steps[|steps| - 1]).1)
  {
    hide T.Step, V.Judge, V.History, Q.BlockReasons, C.Assess, C.WeightsFor, C.WellFormed, DetectorAfter, MachineInput,
         ValidConfig;
  }

  /** The machine inside the engine is the machine run on those events, so that
      everything proved of machine runs holds inside every engine run. */
  lemma {:induction false} MachineFollows(c: EngineConfig, es: seq<Event>, k: nat)
    requires ValidConfig(c) && AllWellFormed(es) && k <= |es|
    ensures At(c, es, k).machine == M.At(c.machine, MachineEvents(c, es, k), |MachineEvents(c, es, k)|)
    ensures k < |es| && Reported(c, es, k).Some? ==>
      var all := MachineEvents(c, es, k + 1);
      all != [] && Reported(c, es, k).value.output == M.Reported(c.machine, all, |all| - 1)
  {
    hide Apply, MachineSteps, M.Apply, AcceptedBy, ValidConfig;
    if k > 0 {
      MachineFollows(c, es, k - 1);
      OneEventFollows(c, es, k - 1);
    }
    if k < |es| {
      OneEventFollows(c, es, k);
    }
  }

  lemma OneEventFollows(c: EngineConfig, es: seq<Event>, k: nat)
    requires ValidConfig(c) && AllWellFormed(es) && k < |es|
    requires At(c, es, k).machine == M.At(c.machine, MachineEvents(c, es, k), |MachineEvents(c, es, k)|)
    ensures At(c, es, k + 1).machine == M.At(c.machine, MachineEvents(c, es, k + 1), |MachineEvents(c, es, k + 1)|)
    ensures Reported(c, es, k).Some? ==>
      var all := MachineEvents(c, es, k + 1);
      all != [] && Reported(c, es, k).value.output == M.Reported(c.machine, all, |all| - 1)
  {
    hide Apply, MachineSteps, AcceptedBy, ValidConfig, T.Step;
    var before, steps := MachineEvents(c, es, k), MachineSteps(c, At(c, es, k), es[k]);
    StepFollows(c, At(c, es, k), es[k]);
    PrefixDecides(c.machine, before, steps, |before|);
    if |steps| == 2 {
      assert (before + steps)[|before|] == M.Flatten;
      assert M.At(c.machine, before + steps, |before| + 1) == T.START;
    }
  }

  /** What an accepted snapshot does, stage by stage. */
  lemma AcceptedStep(c: EngineConfig, e: Engine, raw: RawSnapshot, x: Readings)
    requires ValidConfig(c) && C.WellFormed(x.features) && JudgedBy(c, e, raw).Accepted?
    ensures var (after, report) := Processed(c, e, raw, x);
      && report.Some? && report.value.index == after.index == e.index + 1
      && !after.pending
      && after.history == (if Recovers(c, e, raw) then None else Some(V.Summary(raw)))
      && after.run == (if Recovers(c, e, raw) then [] else e.run)
                      + [MidPoint(V.Mid(raw) / c.tickSize, e.history.None? || JudgedBy(c, e, raw).gap)]
      && after.counters.resets == e.counters.resets + (if Recovers(c, e, raw) then 1 else 0)
  {
    hide T.Step, Q.BlockReasons, C.Assess, C.WeightsFor, C.WellFormed, DetectorAfter, MachineInput,
         V.LadderFault, V.Duplicate, V.Discontinuous, V.TemporalFault;
  }

  /** The parts of an engine that only an accepted snapshot may change. */
  function Frozen(e: Engine): Engine {
    e.(pending := false, lastGapMs := None, counters := e.counters.(rejected := 0, gaps := 0))
  }

  /** A rejected snapshot touches nothing but counters and the gap flag. */
  lemma RejectedStep(c: EngineConfig, e: Engine, raw: RawSnapshot, x: Readings)
    requires ValidConfig(c) && C.WellFormed(x.features) && JudgedBy(c, e, raw).Rejected?
    ensures var (after, report) := Processed(c, e, raw, x);
      && report.None?
      && after == e.(pending := after.pending, lastGapMs := after.lastGapMs, counters := after.counters)
      && Frozen(after) == Frozen(e)
      && after.pending == (e.pending || JudgedBy(c, e, raw).gap)
  {
    hide V.Judge;
  }

  // -- entries need warmup and confirmations ------------------------------------

  /** Counted in snapshots since the last reset: leaving the warmup state takes
      the whole warmup, arming a watch one more, each confirmation one more. */
  predicate WarmedUp(c: EngineConfig, m: T.Machine, snapshots: nat) {
    && M.Consistent(c.machine, m)
    && (m.state != T.Warmup ==> snapshots >= c.warmupSnapshots)
    && (M.SignOfWatch(m.state) != 0 ==> snapshots >= c.warmupSnapshots + 1 + m.confirmations)
  }

  lemma MachineWarms(c: EngineConfig, m: T.Machine, snapshots: nat, i: T.Input)
    requires T.ValidConfig(c.machine) && WarmedUp(c, m, snapshots)
    requires Q.WarmingUp in i.reasons <==> snapshots + 1 < c.warmupSnapshots
    ensures var (after, o) := T.Step(c.machine, m, i);
      && WarmedUp(c, after, snapshots + 1)
      && (M.Entered(o) ==> snapshots >= c.warmupSnapshots + c.machine.entryConfirmations)
  {
    M.ConsistentStep(c.machine, m, M.Tick(i));
  }

  lemma MachineStage(c: EngineConfig, e: Engine, raw: RawSnapshot, x: Readings)
    requires ValidConfig(c) && C.WellFormed(x.features) && JudgedBy(c, e, raw).Accepted?
    ensures var m := if Recovers(c, e, raw) then T.START else e.machine;
      var i := InputFrom(c, e, raw, x);
      var (after, report) := Processed(c, e, raw, x);
      && report.Some? && (after.machine, report.value.output) == T.Step(c.machine, m, i)
      && (Q.WarmingUp in i.reasons <==> |after.run| < c.warmupSnapshots)
  {
    hide T.Step, Q.BlockReasons, C.Assess, C.WeightsFor, C.WellFormed, DetectorAfter, V.Judge, V.History;
    AcceptedIsTwoSided(c, e, raw);
    Q.BlockReasonsExactly(c.quality, View(c, Prepared(c, e, raw, x), JudgedBy(c, e, raw).snapshot, x));
  }

  lemma EventWarms(c: EngineConfig, e: Engine, ev: Event)
    requires ValidConfig(c) && WellFormed(ev) && WarmedUp(c, e.machine, |e.run|)
    ensures var (after, report) := Apply(c, e, ev);
      && WarmedUp(c, after.machine, |after.run|)
      && (report.Some? && M.Entered(report.value.output) ==>
            |after.run| >= 1 + c.warmupSnapshots + c.machine.entryConfirmations)
  {
    hide WarmedUp, Processed, T.Step, V.Judge, InputFrom, Recovers;
    if AcceptedBy(c, e, ev) {
      AcceptedStep(c, e, ev.raw, ev.readings);
      MachineStage(c, e, ev.raw, ev.readings);
      var m := if Recovers(c, e, ev.raw) then T.START else e.machine;
      assert WarmedUp(c, T.START, 0) by {
        FreshIsWarmedUp(c);
      }
      MachineWarms(c, m, if Recovers(c, e, ev.raw) then 0 else |e.run|,
                   InputFrom(c, e, ev.raw, ev.readings));
    } else if ev.Feed? {
      RejectedStep(c, e, ev.raw, ev.readings);
    }
  }

  lemma FreshIsWarmedUp(c: EngineConfig)
    requires ValidConfig(c)
    ensures WarmedUp(c, T.START, 0)
  {
  }

  lemma {:induction false} AlwaysWarmedUp(c: EngineConfig, es: seq<Event>, k: nat)
    requires ValidConfig(c) && AllWellFormed(es) && k <= |es|
    ensures WarmedUp(c, At(c, es, k).machine, |At(c, es, k).run|)
  {
    hide WarmedUp, Apply, ValidConfig;
    if k == 0 {
      FreshIsWarmedUp(c);
    } else {
      AlwaysWarmedUp(c, es, k - 1);
      EventWarms(c, At(c, es, k - 1), es[k - 1]);
    }
  }

  /** The statistics count the accepted snapshots since the last reset. */
  lemma {:induction false} RunCounts(c: EngineConfig, es: seq<Event>, j: nat, k: nat)
    requires ValidConfig(c) && AllWellFormed(es) && j < k <= |es|
    requires Restarts(c, es, j) && Uninterrupted(c, es, j + 1, k)
    ensures |At(c, es, k).run| == 1 + At(c, es, k).index - At(c, es, j + 1).index
  {
    hide Processed, V.Judge;
    var e, ev := At(c, es, k - 1), es[k - 1];
    if k > j + 1 {
      RunCounts(c, es, j, k - 1);
      assert !Restarts(c, es, k - 1);
    }
    if AcceptedBy(c, e, ev) {
      AcceptedStep(c, e, ev.raw, ev.readings);
    } else if ev.Feed? {
      RejectedStep(c, e, ev.raw, ev.readings);
    }
  }

  /** If the estimators were last reset at one accepted snapshot, no position is
      entered before warmupSnapshots + entryConfirmations further ones. */
  lemma {:induction false} EntryNeedsWarmup(c: EngineConfig, es: seq<Event>, j: nat, k: nat)
    requires ValidConfig(c) && AllWellFormed(es) && j < k < |es|
    requires Restarts(c, es, j) && Uninterrupted(c, es, j + 1, k + 1)
    requires Reported(c, es, k).Some? && M.Entered(Reported(c, es, k).value.output)
    ensures Reported(c, es, k).value.index
         >= At(c, es, j + 1).index + c.warmupSnapshots + c.machine.entryConfirmations
  {
    hide WarmedUp, Processed, V.Judge;
    AlwaysWarmedUp(c, es, k);
    EventWarms(c, At(c, es, k), es[k]);
    RunCounts(c, es, j, k + 1);
    if AcceptedBy(c, At(c, es, k), es[k]) {
      AcceptedStep(c, At(c, es, k), es[k].raw, es[k].readings);
    } else if es[k].Feed? {
      RejectedStep(c, At(c, es, k), es[k].raw, es[k].readings);
    }
  }

  ghost predicate Disciplined(c: T.MachineConfig, all: seq<M.Event>, k: nat, d: T.Direction)
    requires k < |all|
  {
    exists a :: M.Disciplined(c, all, a, k, d)
  }

  /** In every engine run an entry is preceded by an unbroken, unexpired watch
      whose last entryConfirmations snapshots met every entry condition, and by
      the warmup: at least 1 + warmupSnapshots + entryConfirmations snapshots
      since creation or the last reset. */
  lemma {:induction false} EngineEntryDiscipline(c: EngineConfig, es: seq<Event>, k: nat)
    requires ValidConfig(c) && AllWellFormed(es) && k < |es|
    requires Reported(c, es, k).Some? && M.Entered(Reported(c, es, k).value.output)
    ensures var all := MachineEvents(c, es, k + 1);
      all != [] && Disciplined(c.machine, all, |all| - 1, Reported(c, es, k).value.output.position.value.direction)
    ensures |At(c, es, k + 1).run| >= 1 + c.warmupSnapshots + c.machine.entryConfirmations
  {
    hide WarmedUp, Apply, M.Apply, M.Disciplined, MachineSteps;
    MachineFollows(c, es, k);
    AlwaysWarmedUp(c, es, k);
    EventWarms(c, At(c, es, k), es[k]);
    var all := MachineEvents(c, es, k + 1);
    M.EntryDiscipline(c.machine, all, |all| - 1);
  }

  /** A momentum no larger than rounding residue is never read as opposition, so
      it cannot turn a trend into a pullback. */
  lemma ResidueNeverOpposes(c: EngineConfig, run: seq<MidPoint>, x: Readings)
    requires 4 <= c.regime.window
    requires MOMENTUM in x.features.at && x.features.at[MOMENTUM].valid ==>
        Abs(x.features.at[MOMENTUM].value) <= EPSILON
    ensures R.Classify(c.regime, RegimeReading(c, run, x)) != R.Pullback
  {
    hide Efficiency;
  }

  /** Features report values in [-1, 1]. */
  predicate UnitFeatures(ev: Event)
    requires WellFormed(ev)
  {
    ev.Feed? ==> C.UnitValues(ev.readings.features)
  }

  lemma SmootherStays(c: EngineConfig, e: Engine, raw: RawSnapshot, x: Readings)
    requires ValidConfig(c) && C.WellFormed(x.features) && C.UnitValues(x.features) && JudgedBy(c, e, raw).Accepted?
    requires -1.0 <= e.smoother.value <= 1.0
    ensures var (after, report) := Processed(c, e, raw, x);
      && -1.0 <= after.smoother.value <= 1.0
      && report.Some? && -1.0 <= report.value.score.score <= 1.0 && -1.0 <= report.value.score.smoothed <= 1.0
      && (report.value.score.valid ==> report.value.score.smoothed == after.smoother.value)
  {
    hide V.Judge, V.History, T.Step, T.Flattened, C.Assess, C.UnitValues, C.WeightsFor, C.Voters, C.Effective,
         C.TallyOf, C.ContributorsWithin, Q.BlockReasons, DetectorAfter, MachineInput, Exponential;
    AcceptedIsTwoSided(c, e, raw);
    var prepared, s := Prepared(c, e, raw, x), JudgedBy(c, e, raw).snapshot;
    var table := C.WeightsFor(c.composite, DetectorAfter(c, prepared, x).regime);
    C.UnitContributors(x.features, table,
                       C.Effective(c.composite, table, C.Voters(x.features, table, x.features.order)));
    C.ScoreIsWeightedMean(c.composite, c.decay, c.maxDt, x.features, table, prepared.smoother, s.dtMs, -1.0, 1.0);
  }

  /** In every run with features in [-1, 1] the smoother stays there, so neither
      clamp of the score ever bites. */
  lemma {:induction false} ScoresStayInUnit(c: EngineConfig, es: seq<Event>, k: nat)
    requires ValidConfig(c) && AllWellFormed(es) && k <= |es| && forall i :: 0 <= i < |es| ==> UnitFeatures(es[i])
    ensures -1.0 <= At(c, es, k).smoother.value <= 1.0
    ensures k < |es| && Reported(c, es, k).Some? ==>
      var score := Reported(c, es, k).value.score;
      -1.0 <= score.smoothed <= 1.0 && (score.valid ==> score.smoothed == At(c, es, k + 1).smoother.value)
  {
    hide Processed, C.UnitValues, V.Judge;
    if k > 0 {
      ScoresStayInUnit(c, es, k - 1);
      EventKeepsUnit(c, At(c, es, k - 1), es[k - 1]);
    }
    if k < |es| {
      EventKeepsUnit(c, At(c, es, k), es[k]);
    }
  }

  lemma EventKeepsUnit(c: EngineConfig, e: Engine, ev: Event)
    requires ValidConfig(c) && WellFormed(ev) && UnitFeatures(ev) && -1.0 <= e.smoother.value <= 1.0
    ensures var (after, report) := Apply(c, e, ev);
      && -1.0 <= after.smoother.value <= 1.0
      && (report.Some? ==>
            && -1.0 <= report.value.score.smoothed <= 1.0
            && (report.value.score.valid ==> report.value.score.smoothed == after.smoother.value))
  {
    hide Processed, C.UnitValues, V.Judge;
    if AcceptedBy(c, e, ev) {
      SmootherStays(c, e, ev.raw, ev.readings);
    } else if ev.Feed? {
      RejectedStep(c, e, ev.raw, ev.readings);
    }
  }

  // -- order of time, and what a reset forgets ----------------------------------

  /** After an accepted snapshot that did not restart the engine, the validator
      remembers one at least as late. */
  lemma {:induction false} HistoryKept(c: EngineConfig, es: seq<Event>, i: nat, k: nat)
    requires ValidConfig(c) && AllWellFormed(es) && i < k <= |es|
    requires Accepts(c, es, i) && Uninterrupted(c, es, i, k)
    ensures var p := At(c, es, k).history;
      && p.Some?
      && es[i].raw.exchangeTimestampMs <= p.value.exchangeTimestampMs
      && es[i].raw.volumeTradedToday <= p.value.volumeTradedToday
  {
    hide Processed, V.Judge;
    var e, ev := At(c, es, k - 1), es[k - 1];
    assert !Restarts(c, es, k - 1);
    if i < k - 1 {
      HistoryKept(c, es, i, k - 1);
    }
    if AcceptedBy(c, e, ev) {
      AcceptedStep(c, e, ev.raw, ev.readings);
      V.AcceptedExactlyWhen(c.validation, c.tickSize, e.history, ev.raw);
    } else if ev.Feed? {
      RejectedStep(c, e, ev.raw, ev.readings);
    }
  }

  /** Time and volume never run backwards between accepted snapshots, as long as
      none of those before the later one restarted the engine. */
  lemma {:induction false} AcceptedInOrder(c: EngineConfig, es: seq<Event>, i: nat, k: nat)
    requires ValidConfig(c) && AllWellFormed(es) && i < k < |es|
    requires Accepts(c, es, i) && Accepts(c, es, k) && Uninterrupted(c, es, i, k)
    ensures es[i].raw.exchangeTimestampMs <= es[k].raw.exchangeTimestampMs
    ensures es[i].raw.volumeTradedToday <= es[k].raw.volumeTradedToday
  {
    hide Processed, V.Judge;
    HistoryKept(c, es, i, k);
    V.AcceptedExactlyWhen(c.validation, c.tickSize, At(c, es, k).history, es[k].raw);
  }

  /** The next snapshot is certain not to predate an accepted one exactly when
      that one did not restart the engine: the restart clears the validator
      after it has accepted, so even an earlier timestamp passes next. */
  lemma {:induction false} OrderIsCheckedExactlyWhen(c: EngineConfig, es: seq<Event>, i: nat)
    requires ValidConfig(c) && AllWellFormed(es) && i < |es| && Accepts(c, es, i)
    ensures (forall raw :: JudgedBy(c, At(c, es, i + 1), raw).Accepted? ==>
               es[i].raw.exchangeTimestampMs <= raw.exchangeTimestampMs)
       <==> !Restarts(c, es, i)
  {
    hide Processed, V.Judge;
    var raw, after := es[i].raw, At(c, es, i + 1);
    AcceptedStep(c, At(c, es, i), raw, es[i].readings);
    if Restarts(c, es, i) {
      var earlier := raw.(exchangeTimestampMs := raw.exchangeTimestampMs - 1);
      V.AcceptedExactlyWhen(c.validation, c.tickSize, At(c, es, i).history, raw);
      V.AcceptedExactlyWhen(c.validation, c.tickSize, after.history, earlier);
      assert JudgedBy(c, after, earlier).Accepted?;
    } else {
      forall next: RawSnapshot | JudgedBy(c, after, next).Accepted?
        ensures raw.exchangeTimestampMs <= next.exchangeTimestampMs
      {
        V.AcceptedExactlyWhen(c.validation, c.tickSize, after.history, next);
      }
    }
  }

  /** After a restart the second accepted snapshot, and only that one, opens a
      sequence again, so that its price step and volume are never counted. */
  lemma {:induction false} SecondSnapshotIsFirstAgain(c: EngineConfig, es: seq<Event>, j: nat, k: nat)
    requires ValidConfig(c) && AllWellFormed(es) && j < k <= |es|
    requires Restarts(c, es, j) && Uninterrupted(c, es, j + 1, k)
    ensures At(c, es, k).run != [] && AfterGap(At(c, es, k).run)
    ensures At(c, es, k).history.None? <==> |At(c, es, k).run| == 1
  {
    hide Processed, V.Judge;
    var e, ev := At(c, es, k - 1), es[k - 1];
    if k > j + 1 {
      SecondSnapshotIsFirstAgain(c, es, j, k - 1);
      assert !Restarts(c, es, k - 1);
    }
    if AcceptedBy(c, e, ev) {
      AcceptedStep(c, e, ev.raw, ev.readings);
    } else if ev.Feed? {
      RejectedStep(c, e, ev.raw, ev.readings);
    }
  }

  /** What the second snapshot after a restart reports: a first snapshot, of no
      duration, on which nothing was traded, whatever was since the first. */
  lemma {:induction false} SecondSnapshotClaimsNothing(c: EngineConfig, es: seq<Event>, j: nat, k: nat)
    requires ValidConfig(c) && AllWellFormed(es) && j < k < |es|
    requires Restarts(c, es, j) && Uninterrupted(c, es, j + 1, k) && |At(c, es, k).run| == 1 && Accepts(c, es, k)
    ensures Reported(c, es, k).Some?
    ensures var s := Reported(c, es, k).value.snapshot;
      s.raw == es[k].raw && s.isFirst && s.dtMs == 0.0 && s.deltaVolume == 0
  {
    hide Evaluated, Prepared;
    SecondSnapshotIsFirstAgain(c, es, j, k);
    FirstClaimsNothing(c, At(c, es, k), es[k].raw);
    assert es[k] == Feed(es[k].raw, es[k].readings);
    ReportsTheSnapshot(c, At(c, es, k), es[k].raw, es[k].readings);
  }

  lemma FirstClaimsNothing(c: EngineConfig, e: Engine, raw: RawSnapshot)
    requires 0.0 < c.tickSize && e.history.None? && JudgedBy(c, e, raw).Accepted?
    ensures var s := JudgedBy(c, e, raw).snapshot; s.raw == raw && s.isFirst && s.dtMs == 0.0 && s.deltaVolume == 0
  {
    hide V.StructureFault;
    AcceptedIsTwoSided(c, e, raw);
  }

  lemma ReportsTheSnapshot(c: EngineConfig, e: Engine, raw: RawSnapshot, x: Readings)
    requires ValidConfig(c) && C.WellFormed(x.features) && JudgedBy(c, e, raw).Accepted?
    ensures Processed(c, e, raw, x).1.Some? && Processed(c, e, raw, x).1.value.snapshot == JudgedBy(c, e, raw).snapshot
  {
    hide V.Judge, Prepared, T.Step, Scored, Reasons, Gated;
  }

  // -- the efficiency ratio after a restart ---------------------------------------

  /** A restart, a jump of ten ticks, a move of one tick, then rest. */
  function Message(i: nat): RawSnapshot {
    PlainBook(if i == 0 then 10000 else if i == 1 then 10050 else 10055, 100, 200 * i, 0)
  }

  function JumpFeed(n: nat, x: Readings): (es: seq<Event>)
    ensures |es| == n + 1
  {
    [Notify(0.0)] + seq(n, i requires 0 <= i < n => Feed(Message(i), x))
  }

  lemma MessageAccepted(c: EngineConfig, i: nat, e: Engine)
    requires c.validation == DEFAULTS && c.tickSize == TICK
    requires e.history == if i < 2 then None else Some(V.Summary(Message(i - 1)))
    ensures JudgedBy(c, e, Message(i)).Accepted? && !JudgedBy(c, e, Message(i)).gap
    ensures V.Mid(Message(i)) / TICK == Jump(2000.5, i + 1)[i].mid
  {
    var raw := Message(i);
    PlainBookIsSound(raw.bids[0].pricePaise, 100, 200 * i, 0);
    if i < 2 {
      V.AcceptedExactlyWhen(DEFAULTS, TICK, None, raw);
    } else {
      MessageFollows(i);
      V.FollowerIsAccepted(DEFAULTS, TICK, Message(i - 1), raw);
    }
  }

  lemma MessageFollows(i: nat)
    requires 2 <= i
    ensures V.FollowsOn(DEFAULTS, TICK, Message(i - 1), Message(i))
  {
    var last, raw := Message(i - 1), Message(i);
    PlainBookIsSound(last.bids[0].pricePaise, 100, 200 * (i - 1), 0);
    PlainBookIsSound(raw.bids[0].pricePaise, 100, 200 * i, 0);
    hide V.SoundBook;
    assert V.Mid(raw) - V.Mid(last) == (if i == 2 then TICK else 0.0);
  }

  lemma {:induction false} JumpRun(c: EngineConfig, n: nat, x: Readings, i: nat)
    requires ValidConfig(c) && C.WellFormed(x.features) && c.validation == DEFAULTS && c.tickSize == TICK && i <= n
    ensures AllWellFormed(JumpFeed(n, x))
    ensures var e := At(c, JumpFeed(n, x), 1 + i);
      && e.run == Jump(2000.5, i) && e.pending == (i == 0)
      && e.history == (if i < 2 then None else Some(V.Summary(Message(i - 1))))
    ensures 0 < i ==> Restarts(c, JumpFeed(n, x), 1) && Uninterrupted(c, JumpFeed(n, x), 2, 1 + i)
  {
    hide Processed, V.Judge, V.Summary, Message, PlainBook, Jump, ValidConfig;
    var es := JumpFeed(n, x);
    if i == 0 {
      assert At(c, es, 0) == CREATED;
      NoJumpYet();
    } else {
      JumpRun(c, n, x, i - 1);
      var e := At(c, es, i);
      MessageAccepted(c, i - 1, e);
      AcceptedStep(c, e, Message(i - 1), x);
      assert es[i] == Feed(Message(i - 1), x);
      JumpGrows(i);
    }
  }

  lemma NoJumpYet()
    ensures Jump(2000.5, 0) == []
  {
  }

  lemma JumpGrows(i: nat)
    requires 0 < i
    ensures Jump(2000.5, i) == Jump(2000.5, i - 1) + [MidPoint(Jump(2000.5, i)[i - 1].mid, i <= 2)]
  {
  }

  /** n snapshots have been counted since the restart at event j. */
  ghost predicate RestartedFor(c: EngineConfig, es: seq<Event>, j: nat, k: nat, n: nat) {
    && ValidConfig(c) && AllWellFormed(es) && j < k <= |es|
    && Restarts(c, es, j) && Uninterrupted(c, es, j + 1, k) && |At(c, es, k).run| == n
  }

  /** With the default validator: in every engine run with n >= 4 snapshots since a
      restart the efficiency ratio is reported uncut, exactly when the ring has
      wrapped since; before that a feed the engine accepts gets it cut. */
  lemma {:induction false} ClampAfterRestartExactlyWhen(c: EngineConfig, n: nat, x: Readings)
    requires ValidConfig(c) && C.WellFormed(x.features) && c.validation == DEFAULTS && c.tickSize == TICK && 4 <= n
    ensures (forall es: seq<Event>, j: nat, k: nat :: RestartedFor(c, es, j, k, n) ==>
               ClampInert(At(c, es, k).run, c.regime.window, c.regime.window))
       <==> n > c.regime.window
  {
    var window := c.regime.window;
    if n > window {
      forall es: seq<Event>, j: nat, k: nat | RestartedFor(c, es, j, k, n)
        ensures ClampInert(At(c, es, k).run, window, window)
      {
        SecondSnapshotIsFirstAgain(c, es, j, k);
        NetAtMostPath(At(c, es, k).run, window, window);
      }
    } else {
      var es := JumpFeed(n, x);
      JumpRun(c, n, x, n);
      JumpOvertakes(2000.5, n, window, window);
      hide Net, Path, Jump;
      assert RestartedFor(c, es, 1, n + 1, n);
      assert !ClampInert(At(c, es, n + 1).run, window, window);
    }
  }

  // -- when a pending gap is never served ---------------------------------------

  /** A snapshot that continues the history p. */
  ghost predicate Continues(c: EngineConfig, p: V.Previous, ev: Event)
    requires 0.0 < c.tickSize
  {
    && ev.Feed?
    && V.SoundBook(c.validation, c.tickSize, ev.raw)
    && V.Timely(c.validation, p, ev.raw)
    && !(c.validation.rejectDuplicates && V.Duplicate(p, ev.raw))
  }

  /** As long as nothing continues the history, nothing is accepted: no position
      is closed, no estimator reset and a pending gap stays pending. */
  lemma {:induction false} FrozenUntilContinued(c: EngineConfig, es: seq<Event>, j: nat, k: nat)
    requires ValidConfig(c) && AllWellFormed(es) && j <= k <= |es| && At(c, es, j).history.Some?
    requires forall i :: j <= i < k ==> !Continues(c, At(c, es, j).history.value, es[i])
    ensures Frozen(At(c, es, k)) == Frozen(At(c, es, j))
    ensures At(c, es, j).pending ==> At(c, es, k).pending
    ensures forall i :: j <= i < k ==> !Accepts(c, es, i)
  {
    hide Processed, V.Judge, V.SoundBook, V.Timely, V.Duplicate;
    if k > j {
      FrozenUntilContinued(c, es, j, k - 1);
      var e, ev := At(c, es, k - 1), es[k - 1];
      assert e.history == Frozen(e).history;
      if ev.Feed? {
        V.AcceptedExactlyWhen(c.validation, c.tickSize, e.history, ev.raw);
        RejectedStep(c, e, ev.raw, ev.readings);
      }
    }
  }

  /** Something is accepted on a continuation exactly when some snapshot on it
      continues the history the engine has now. */
  lemma {:induction false} ResumesExactlyWhen(c: EngineConfig, es: seq<Event>, j: nat, k: nat)
    requires ValidConfig(c) && AllWellFormed(es) && j <= k <= |es| && At(c, es, j).history.Some?
    ensures (exists i :: j <= i < k && Accepts(c, es, i))
       <==> (exists i :: j <= i < k && Continues(c, At(c, es, j).history.value, es[i]))
  {
    hide Processed, V.Judge, V.SoundBook, V.Timely, V.Duplicate;
    var p := At(c, es, j).history.value;
    if i :| j <= i < k && Continues(c, p, es[i]) {
      var first := FirstContinuation(c, es, p, j, i);
      FrozenUntilContinued(c, es, j, first);
      assert At(c, es, first).history == Frozen(At(c, es, first)).history;
      V.AcceptedExactlyWhen(c.validation, c.tickSize, At(c, es, first).history, es[first].raw);
      assert Accepts(c, es, first);
    } else {
      FrozenUntilContinued(c, es, j, k);
    }
  }

  ghost function FirstContinuation(c: EngineConfig, es: seq<Event>, p: V.Previous, j: nat, i: nat): (first: nat)
    requires 0.0 < c.tickSize && j <= i < |es| && Continues(c, p, es[i])
    ensures j <= first <= i && Continues(c, p, es[first])
    ensures forall l :: j <= l < first ==> !Continues(c, p, es[l])
    decreases i - j
  {
    if Continues(c, p, es[j]) then j else FirstContinuation(c, es, p, j + 1, i)
  }

  /** After a snapshot is refused as stale, and for as long as time does not run
      backwards, nothing is ever accepted again and the gap it announced is
      never served: an open position stays open, its stop unread. */
  lemma {:induction false} StaleForever(c: EngineConfig, es: seq<Event>, j: nat, k: nat)
    requires ValidConfig(c) && AllWellFormed(es) && j < k <= |es| && es[j].Feed?
    requires JudgedBy(c, At(c, es, j), es[j].raw) == V.Rejected(V.StaleTimestamp, true)
    requires forall i :: j < i < k && es[i].Feed? ==> es[j].raw.exchangeTimestampMs <= es[i].raw.exchangeTimestampMs
    ensures At(c, es, k).pending && Frozen(At(c, es, k)) == Frozen(At(c, es, j))
    ensures forall i :: j <= i < k ==> Reported(c, es, i).None?
  {
    hide Processed, V.Judge, V.SoundBook, V.Duplicate;
    var e := At(c, es, j);
    StaleMeansLate(c, e, es[j].raw);
    RejectedStep(c, e, es[j].raw, es[j].readings);
    FrozenUntilContinued(c, es, j + 1, k);
    forall i | j <= i < k
      ensures Reported(c, es, i).None?
    {
      assert !Accepts(c, es, i);
      if es[i].Feed? {
        RejectedStep(c, At(c, es, i), es[i].raw, es[i].readings);
      }
    }
  }

  lemma StaleMeansLate(c: EngineConfig, e: Engine, raw: RawSnapshot)
    requires 0.0 < c.tickSize && JudgedBy(c, e, raw) == V.Rejected(V.StaleTimestamp, true)
    ensures e.history.Some?
    ensures (raw.exchangeTimestampMs - e.history.value.exchangeTimestampMs) as real > c.validation.maxStalenessMs
  {
    hide V.LadderFault, V.Duplicate, V.Discontinuous;
  }

  /** It takes no more than a silence: the first sound book after more than
      maxStalenessMs is always refused as stale. */
  lemma SilenceIsStale(c: EngineConfig, e: Engine, raw: RawSnapshot)
    requires 0.0 < c.tickSize && e.history.Some? && V.SoundBook(c.validation, c.tickSize, raw)
    requires e.history.value.exchangeTimestampMs <= raw.exchangeTimestampMs
    ensures JudgedBy(c, e, raw) == V.Rejected(V.StaleTimestamp, true)
       <==> (raw.exchangeTimestampMs - e.history.value.exchangeTimestampMs) as real > c.validation.maxStalenessMs
  {
    hide V.StructureFault, V.SoundBook, V.Duplicate, V.Discontinuous;
    V.SoundBookIsFaultFree(c.validation, c.tickSize, raw);
  }

  /** A sound book that breaks the order of time or volume is never accepted, and
      the gap it proves is noted there and then; no other rejection notes one. */
  lemma BrokenOrderIsNoted(c: EngineConfig, es: seq<Event>, k: nat)
    requires ValidConfig(c) && AllWellFormed(es) && k < |es| && es[k].Feed?
    ensures var (before, after, raw) := (At(c, es, k), At(c, es, k + 1), es[k].raw);
      var broken := before.history.Some? && V.SoundBook(c.validation, c.tickSize, raw) &&
        var p := before.history.value;
        || raw.exchangeTimestampMs < p.exchangeTimestampMs
        || (raw.exchangeTimestampMs - p.exchangeTimestampMs) as real > c.validation.maxStalenessMs
        || raw.volumeTradedToday < p.volumeTradedToday;
      && (broken ==> Reported(c, es, k).None?)
      && (Reported(c, es, k).None? ==>
            && Frozen(after) == Frozen(before)
            && after.pending == (before.pending || broken)
            && after.lastGapMs == (if broken then Some(es[k].readings.noteMs) else before.lastGapMs)
            && after.counters.gaps == before.counters.gaps + (if broken then 1 else 0))
  {
    hide V.Judge, V.SoundBook, Evaluated, Prepared;
    var e, raw := At(c, es, k), es[k].raw;
    V.RejectedExactlyWhen(c.validation, c.tickSize, e.history, raw);
    if JudgedBy(c, e, raw).Rejected? {
      RejectedStep(c, e, raw, es[k].readings);
    }
  }

  // -- long/short mirror --------------------------------------------------------

  /** Pressure reversed: every feature value and the trend change sign. */
  function MirrorReadings(x: Readings): Readings {
    x.(features := C.MirrorFeatures(x.features), trend := -x.trend)
  }

  function MirrorEvent(ev: Event): Event {
    match ev
    case Feed(raw, x) => Feed(raw, MirrorReadings(x))
    case Notify(atMs) => ev
  }

  function MirrorEvents(es: seq<Event>): seq<Event> {
    Mapped(es, MirrorEvent)
  }

  function MirrorEngine(e: Engine): Engine {
    e.(smoother := C.MirrorEma(e.smoother), machine := M.MirrorMachine(e.machine))
  }

  function MirrorReport(r: Report): Report {
    r.(score := C.MirrorScore(r.score), output := M.MirrorOutput(r.output),
       forced := MirrorForced(r.forced))
  }

  function MirrorAll(result: (Engine, Option<Report>)): (Engine, Option<Report>) {
    (MirrorEngine(result.0), if result.1.Some? then Some(MirrorReport(result.1.value)) else None)
  }

  lemma MirrorKeepsForm(ev: Event)
    requires WellFormed(ev)
    ensures WellFormed(MirrorEvent(ev))
  {
  }

  lemma MirrorReading(c: EngineConfig, run: seq<MidPoint>, x: Readings)
    requires 4 <= c.regime.window
    ensures RegimeReading(c, run, MirrorReadings(x)) == R.MirrorReading(RegimeReading(c, run, x))
    ensures var ltp := LtpReading(x.features);
      LtpReading(MirrorReadings(x).features)
      == if ltp.Some? then Some(T.LtpFeature(ltp.value.valid, -ltp.value.value)) else None
  {
    hide Efficiency;
  }

  lemma MirrorDetector(c: EngineConfig, e: Engine, x: Readings)
    requires 4 <= c.regime.window
    ensures DetectorAfter(c, MirrorEngine(e), MirrorReadings(x)) == DetectorAfter(c, e, x)
  {
    hide R.Classify, R.Hysteresis, RegimeReading, M.MirrorMachine;
    MirrorReading(c, e.run, x);
    R.MirrorClassify(c.regime, RegimeReading(c, e.run, x));
  }

  lemma MirrorScored(c: EngineConfig, e: Engine, regime: R.Regime, s: Snapshot, x: Readings)
    requires C.ValidConfig(c.composite) && C.WellFormed(x.features)
    ensures C.WellFormed(MirrorReadings(x).features)
    ensures var (score, smoother) := Scored(c, e, regime, s, x);
      Scored(c, MirrorEngine(e), regime, s, MirrorReadings(x)) == (C.MirrorScore(score), C.MirrorEma(smoother))
  {
    hide C.Assess, C.WeightsFor, M.MirrorMachine;
    C.MirrorAssess(c.composite, c.decay, c.maxDt, x.features, C.WeightsFor(c.composite, regime), e.smoother, s.dtMs);
  }

  lemma MirrorInputs(score: C.CompositeScore, reasons: seq<Q.BlockReason>, x: Readings)
    ensures MachineInput(C.MirrorScore(score), reasons, MirrorReadings(x))
        == M.MirrorInput(MachineInput(score, reasons, x))
  {
  }

  lemma MirrorMachineStep(c: T.MachineConfig, m: T.Machine, i: T.Input)
    requires M.Consistent(c, m)
    ensures var (after, o) := T.Step(c, m, i);
      T.Step(c, M.MirrorMachine(m), M.MirrorInput(i)) == (M.MirrorMachine(after), M.MirrorOutput(o))
  {
    hide T.Step, M.Consistent, M.MirrorMachine, M.MirrorOutput, M.MirrorInput;
    M.MirrorStep(c, m, M.Tick(i));
  }

  function MirrorForced(forced: Option<T.Output>): Option<T.Output> {
    if forced.Some? then Some(M.MirrorOutput(forced.value)) else None
  }

  lemma MirrorEvaluated(c: EngineConfig, e: Engine, s: Snapshot, x: Readings, forced: Option<T.Output>)
    requires ValidConfig(c) && C.WellFormed(x.features) && s.raw.bids != [] && s.raw.asks != []
    requires M.Consistent(c.machine, e.machine)
    ensures C.WellFormed(MirrorReadings(x).features)
    ensures var (after, report) := Evaluated(c, e, s, x, forced);
      Evaluated(c, MirrorEngine(e), s, MirrorReadings(x), MirrorForced(forced))
          == (MirrorEngine(after), MirrorReport(report))
  {
    hide T.Step, Q.BlockReasons, C.WellFormed, M.MirrorMachine, M.MirrorOutput, M.Consistent,
         DetectorAfter, Scored, MachineInput, M.MirrorInput, C.MirrorScore, C.MirrorEma, C.MirrorFeatures;
    MirrorDetector(c, e, x);
    var gated := Gated(c, e, s, x);
    assert Gated(c, MirrorEngine(e), s, MirrorReadings(x)) == MirrorEngine(gated);
    MirrorScored(c, gated, gated.detector.regime, s, x);
    var score := Scored(c, gated, gated.detector.regime, s, x).0;
    MirrorInputs(score, Reasons(c, e, s, x), x);
    MirrorMachineStep(c.machine, e.machine, MachineInput(score, Reasons(c, e, s, x), x));
  }

  lemma MirrorProcessed(c: EngineConfig, e: Engine, raw: RawSnapshot, x: Readings)
    requires ValidConfig(c) && C.WellFormed(x.features) && M.Consistent(c.machine, e.machine)
    ensures C.WellFormed(MirrorReadings(x).features)
    ensures Processed(c, MirrorEngine(e), raw, MirrorReadings(x)) == MirrorAll(Processed(c, e, raw, x))
  {
    hide V.Judge, V.History, Evaluated, C.WellFormed, M.Consistent, C.MirrorFeatures, M.MirrorMachine, C.MirrorEma,
         M.MirrorOutput;
    if JudgedBy(c, e, raw).Accepted? {
      AcceptedIsTwoSided(c, e, raw);
      M.MirrorFlattened(e.machine);
      MirrorPrepared(c, e, raw, x);
      var forced := if Recovers(c, e, raw) then Some(T.Flattened(e.machine).1) else None;
      assert M.Consistent(c.machine, Prepared(c, e, raw, x).machine) by {
        PreparedIsConsistent(c, e, raw, x);
      }
      MirrorEvaluated(c, Prepared(c, e, raw, x), JudgedBy(c, e, raw).snapshot, x, forced);
    } else {
      MirrorKeepsForm(Feed(raw, x));
    }
  }

  lemma PreparedIsConsistent(c: EngineConfig, e: Engine, raw: RawSnapshot, x: Readings)
    requires ValidConfig(c) && JudgedBy(c, e, raw).Accepted? && M.Consistent(c.machine, e.machine)
    ensures M.Consistent(c.machine, Prepared(c, e, raw, x).machine)
  {
    hide V.Judge, V.History;
  }

  lemma MirrorPrepared(c: EngineConfig, e: Engine, raw: RawSnapshot, x: Readings)
    requires 0.0 < c.tickSize && JudgedBy(c, e, raw).Accepted?
    ensures Prepared(c, MirrorEngine(e), raw, MirrorReadings(x)) == MirrorEngine(Prepared(c, e, raw, x))
  {
    hide V.Judge, V.History, C.MirrorFeatures, T.Flattened, M.MirrorMachine;
    M.MirrorFlattened(e.machine);
    MirrorOfStart();
  }

  lemma MirrorOfStart()
    ensures M.MirrorMachine(T.START) == T.START && C.MirrorEma(EMPTY_EMA) == EMPTY_EMA
  {
    hide M.MirrorMachine;
    M.MirrorOfStart();
  }

  /** Reversing the pressure turns every engine run into the run with long and
      short exchanged and scores negated, while books, regimes, gates, counters
      and resets stay the same. */
  lemma {:induction false} MirrorRun(c: EngineConfig, es: seq<Event>, k: nat)
    requires ValidConfig(c) && AllWellFormed(es) && k <= |es|
    ensures AllWellFormed(MirrorEvents(es))
    ensures At(c, MirrorEvents(es), k) == MirrorEngine(At(c, es, k))
    ensures k < |es| ==>
      Reported(c, MirrorEvents(es), k) == MirrorAll((At(c, es, k), Reported(c, es, k))).1
  {
    hide Processed, MirrorEngine, MirrorReport, MirrorReadings, WellFormed, ValidConfig, M.Consistent;
    forall i | 0 <= i < |es|
      ensures WellFormed(MirrorEvents(es)[i])
    {
      MirrorKeepsForm(es[i]);
    }
    if k == 0 {
      MirrorOfCreated();
    } else {
      MirrorRun(c, es, k - 1);
      AlwaysWarmedUp(c, es, k - 1);
      MirrorApplied(c, At(c, es, k - 1), es[k - 1]);
    }
    if k < |es| {
      AlwaysWarmedUp(c, es, k);
      MirrorApplied(c, At(c, es, k), es[k]);
    }
  }

  lemma MirrorOfCreated()
    ensures MirrorEngine(CREATED) == CREATED
  {
    MirrorOfStart();
  }

  lemma MirrorApplied(c: EngineConfig, e: Engine, ev: Event)
    requires ValidConfig(c) && WellFormed(ev) && M.Consistent(c.machine, e.machine)
    ensures WellFormed(MirrorEvent(ev))
    ensures Apply(c, MirrorEngine(e), MirrorEvent(ev)) == MirrorAll(Apply(c, e, ev))
  {
    hide Processed, MirrorReport, MirrorReadings, ValidConfig, M.Consistent, M.MirrorMachine, C.MirrorEma;
    MirrorKeepsForm(ev);
    if ev.Feed? {
      MirrorProcessed(c, e, ev.raw, ev.readings);
    }
  }
}
