/** The engine of one instrument as the engine thread of the gap protocol: a call
    that nothing interrupts goes through the steps of one pass, and what those
    steps do to the engine adds up to what the call does. */
module GapPasses {
  import opened Prelude
  import opened MarketRecords
  import opened TimeAwareEmas
  import opened SymbolEngines
  import opened EngineRuns
  import P = GapProtocol
  import V = SnapshotValidation
  import C = Composite
  import R = RegimeDetection
  import T = TradingMachine

  predicate TwoSided(v: V.Verdict) {
    v.Accepted? ==> v.snapshot.raw.bids != [] && v.snapshot.raw.asks != []
  }

  /** What one step of the engine thread does, for a snapshot judged as v. */
  ghost function Did(c: EngineConfig, v: V.Verdict, x: Readings, e: Engine, a: P.Action): Engine
    requires ValidConfig(c) && C.WellFormed(x.features) && TwoSided(v)
  {
    match a
    case Notify | NoteOwn => Noted(e, x.noteMs)
    case Reject(_) => e.(counters := e.counters.(rejected := e.counters.rejected + 1))
    case Accept(_) => if v.Accepted? then e.(history := Some(V.Summary(v.snapshot.raw))) else e
    case ReadFlag => e
    case Clear => e.(pending := false)
    case ForceFlat => e.(machine := T.Flattened(e.machine).0)
    case ResetEstimators =>
      e.(history := None, run := [], detector := R.FRESH, smoother := EMPTY_EMA,
         counters := e.counters.(resets := e.counters.resets + 1))
    case Evaluate => if v.Accepted? then Evaluated(c, Counted(c, e, v.snapshot), v.snapshot, x, None).0 else e
  }

  ghost function Done(c: EngineConfig, v: V.Verdict, x: Readings, e: Engine, actions: seq<P.Action>): Engine
    requires ValidConfig(c) && C.WellFormed(x.features) && TwoSided(v)
    decreases |actions|
  {
    if actions == [] then e else Done(c, v, x, Did(c, v, x, e, actions[0]), actions[1..])
  }

  lemma DoneFirst(c: EngineConfig, v: V.Verdict, x: Readings, e: Engine, a: P.Action, rest: seq<P.Action>)
    requires ValidConfig(c) && C.WellFormed(x.features) && TwoSided(v)
    ensures Done(c, v, x, e, [a] + rest) == Done(c, v, x, Did(c, v, x, e, a), rest)
  {
    assert ([a] + rest)[1..] == rest;
  }

  const RECOVERY := [P.Clear, P.ForceFlat, P.ResetEstimators]

  /** The program of the engine thread after it has judged a snapshot. */
  function Rest(v: V.Verdict, pending: bool): seq<P.Action> {
    if v.Rejected? then [] else [P.ReadFlag] + (if pending then RECOVERY else []) + [P.Evaluate]
  }

  function Verdict(v: V.Verdict): P.Action {
    if v.Rejected? then P.Reject(v.gap) else P.Accept(v.gap)
  }

  /** The program for one snapshot that nothing interrupts. */
  function Pass(v: V.Verdict, pending: bool): seq<P.Action> {
    [Verdict(v)] + if v.gap then [P.NoteOwn] + Rest(v, true) else Rest(v, pending)
  }

  /** The steps of one pass add up to one call. */
  lemma PassIsProcess(c: EngineConfig, e: Engine, raw: RawSnapshot, x: Readings)
    requires ValidConfig(c) && C.WellFormed(x.features)
    ensures var v := JudgedBy(c, e, raw);
      TwoSided(v) && Done(c, v, x, e, Pass(v, e.pending)) == Processed(c, e, raw, x).0
  {
    var v := JudgedBy(c, e, raw);
    CallInStages(c, e, raw, x);
    var judged := Did(c, v, x, e, Verdict(v));
    var noted := if v.gap then Noted(judged, x.noteMs) else judged;
    hide JudgedBy, Processed, Evaluated, ValidConfig, C.WellFormed, T.Flattened, Done;
    DoneFirst(c, v, x, e, Verdict(v), if v.gap then [P.NoteOwn] + Rest(v, true) else Rest(v, e.pending));
    DoneFirst(c, v, x, judged, P.NoteOwn, Rest(v, true));
    RestIsDone(c, v, x, noted);
  }

  /** One call, read as judging, noting a gap of its own, recovering, evaluating. */
  lemma CallInStages(c: EngineConfig, e: Engine, raw: RawSnapshot, x: Readings)
    requires ValidConfig(c) && C.WellFormed(x.features)
    ensures var v := JudgedBy(c, e, raw);
      && TwoSided(v)
      && var judged := Did(c, v, x, e, Verdict(v));
      var noted := if v.gap then Noted(judged, x.noteMs) else judged;
      Processed(c, e, raw, x).0 ==
        if v.Rejected? then noted
        else
          var ready := if noted.pending then Recovered(noted) else noted;
          Evaluated(c, Counted(c, ready, v.snapshot), v.snapshot, x, None).0
  {
    var v := JudgedBy(c, e, raw);
    if v.Accepted? {
      AcceptedIsTwoSided(c, e, raw);
      AcceptedIsRemembered(c, e, raw);
      hide V.Judge, Evaluated, ValidConfig, C.WellFormed, T.Flattened;
      ForcedIsOnlyReported(c, Prepared(c, e, raw, x), v.snapshot, x,
                           if Recovers(c, e, raw) then Some(T.Flattened(e.machine).1) else None);
    }
  }

  lemma RestIsDone(c: EngineConfig, v: V.Verdict, x: Readings, e: Engine)
    requires ValidConfig(c) && C.WellFormed(x.features) && TwoSided(v)
    ensures Done(c, v, x, e, Rest(v, e.pending)) ==
      if v.Rejected? then e
      else Evaluated(c, Counted(c, if e.pending then Recovered(e) else e, v.snapshot), v.snapshot, x, None).0
  {
    hide Evaluated, ValidConfig, C.WellFormed, T.Flattened;
    if v.Accepted? {
      var recovered := if e.pending then Recovered(e) else e;
      RecoveryIsDone(c, v, x, e);
      assert Rest(v, true) == [P.ReadFlag] + ([P.Clear] + ([P.ForceFlat] + ([P.ResetEstimators] + [P.Evaluate])));
      assert Rest(v, false) == [P.ReadFlag] + [P.Evaluate];
      DoneFirst(c, v, x, e, P.ReadFlag, [P.Evaluate]);
      DoneFirst(c, v, x, recovered, P.Evaluate, []);
      assert [P.Evaluate] + [] == [P.Evaluate];
    }
  }

  lemma RecoveryIsDone(c: EngineConfig, v: V.Verdict, x: Readings, e: Engine)
    requires ValidConfig(c) && C.WellFormed(x.features) && TwoSided(v) && v.Accepted?
    ensures Done(c, v, x, e, [P.ReadFlag] + ([P.Clear] + ([P.ForceFlat] + ([P.ResetEstimators] + [P.Evaluate]))))
         == Done(c, v, x, Recovered(e), [P.Evaluate])
  {
    hide Evaluated, ValidConfig, C.WellFormed, T.Flattened, Done;
    var cleared := e.(pending := false);
    var closed := cleared.(machine := T.Flattened(e.machine).0);
    DoneFirst(c, v, x, e, P.ReadFlag, [P.Clear] + ([P.ForceFlat] + ([P.ResetEstimators] + [P.Evaluate])));
    DoneFirst(c, v, x, e, P.Clear, [P.ForceFlat] + ([P.ResetEstimators] + [P.Evaluate]));
    DoneFirst(c, v, x, cleared, P.ForceFlat, [P.ResetEstimators] + [P.Evaluate]);
    DoneFirst(c, v, x, closed, P.ResetEstimators, [P.Evaluate]);
  }

  lemma AcceptedIsRemembered(c: EngineConfig, e: Engine, raw: RawSnapshot)
    requires 0.0 < c.tickSize && JudgedBy(c, e, raw).Accepted? && raw.bids != [] && raw.asks != []
    ensures V.History(c.validation, c.tickSize, e.history, raw) == Some(V.Summary(raw))
  {
  }

  /** The forced close is mentioned in the report and nowhere else. */
  lemma ForcedIsOnlyReported(c: EngineConfig, e: Engine, s: Snapshot, x: Readings, forced: Option<T.Output>)
    requires ValidConfig(c) && C.WellFormed(x.features) && s.raw.bids != [] && s.raw.asks != []
    ensures Evaluated(c, e, s, x, forced).0 == Evaluated(c, e, s, x, None).0
  {
  }

  // -- whole runs --------------------------------------------------------------------

  /** What one event puts the protocol through. */
  ghost function Steps(c: EngineConfig, e: Engine, ev: Event): seq<P.Action>
    requires ValidConfig(c)
  {
    if ev.Notify? then [P.Notify] else Pass(JudgedBy(c, e, ev.raw), e.pending)
  }

  ghost function Actions(c: EngineConfig, es: seq<Event>, k: nat): seq<P.Action>
    requires ValidConfig(c) && AllWellFormed(es) && k <= |es|
  {
    if k == 0 then [] else Actions(c, es, k - 1) + Steps(c, At(c, es, k - 1), es[k - 1])
  }

  /** Every engine run is a run of the protocol, with the same flag after each
      event, so what is proved of the protocol holds of the engine. */
  lemma {:induction false} EngineFollowsProtocol(c: EngineConfig, es: seq<Event>, k: nat)
    requires ValidConfig(c) && AllWellFormed(es) && k <= |es|
    ensures var actions := Actions(c, es, k);
      P.Run(actions) && P.StateAt(actions, |actions|) == P.State(P.Idle, At(c, es, k).pending)
  {
    hide Processed, V.Judge, P.Run, P.StateAt, Pass;
    if k == 0 {
      NothingRun();
    } else {
      EngineFollowsProtocol(c, es, k - 1);
      var actions, e, ev := Actions(c, es, k - 1), At(c, es, k - 1), es[k - 1];
      if ev.Notify? {
        Extended(actions, P.Notify);
      } else {
        PassRuns(actions, JudgedBy(c, e, ev.raw), e.pending);
        PendingAfter(c, e, ev.raw, ev.readings);
      }
    }
  }

  lemma NothingRun()
    ensures P.Run([]) && P.StateAt([], 0) == P.State(P.Idle, false)
  {
  }

  lemma PendingAfter(c: EngineConfig, e: Engine, raw: RawSnapshot, x: Readings)
    requires ValidConfig(c) && C.WellFormed(x.features)
    ensures var v := JudgedBy(c, e, raw);
      Processed(c, e, raw, x).0.pending == (v.Rejected? && (e.pending || v.gap))
  {
    hide V.Judge, Processed;
    if JudgedBy(c, e, raw).Accepted? {
      AcceptedStep(c, e, raw, x);
    } else {
      RejectedStep(c, e, raw, x);
    }
  }

  lemma Extended(actions: seq<P.Action>, a: P.Action)
    requires P.Run(actions) && P.Enabled(P.StateAt(actions, |actions|), a)
    ensures P.Run(actions + [a])
    ensures P.StateAt(actions + [a], |actions| + 1) == P.Next(P.StateAt(actions, |actions|), a)
  {
    hide P.Enabled, P.Next;
    forall k | 0 <= k <= |actions|
      ensures P.StateAt(actions + [a], k) == P.StateAt(actions, k)
    {
      PrefixDecides(actions, a, k);
    }
  }

  lemma {:induction false} PrefixDecides(actions: seq<P.Action>, a: P.Action, k: nat)
    requires k <= |actions|
    ensures P.StateAt(actions + [a], k) == P.StateAt(actions, k)
  {
    if k > 0 {
      PrefixDecides(actions, a, k - 1);
    }
  }

  lemma PassRuns(actions: seq<P.Action>, v: V.Verdict, pending: bool)
    requires P.Run(actions) && P.StateAt(actions, |actions|) == P.State(P.Idle, pending)
    ensures var more := actions + Pass(v, pending);
      && P.Run(more)
      && P.StateAt(more, |more|) == P.State(P.Idle, v.Rejected? && (pending || v.gap))
  {
    hide P.Run, P.StateAt;
    Extended(actions, Verdict(v));
    var judged := actions + [Verdict(v)];
    if v.gap {
      Extended(judged, P.NoteOwn);
      RestRuns(judged + [P.NoteOwn], v, true);
      assert actions + Pass(v, pending) == judged + [P.NoteOwn] + Rest(v, true);
    } else {
      RestRuns(judged, v, pending);
      assert actions + Pass(v, pending) == judged + Rest(v, pending);
    }
  }

  lemma RestRuns(actions: seq<P.Action>, v: V.Verdict, pending: bool)
    requires P.Run(actions)
    requires P.StateAt(actions, |actions|) == P.State(if v.Rejected? then P.Idle else P.Accepted, pending)
    ensures var more := actions + Rest(v, pending);
      P.Run(more) && P.StateAt(more, |more|) == P.State(P.Idle, v.Rejected? && pending)
  {
    hide P.Run, P.StateAt;
    if v.Rejected? {
      assert actions + Rest(v, pending) == actions;
    } else {
      var at := actions + [P.ReadFlag];
      Extended(actions, P.ReadFlag);
      if pending {
        Extended(at, P.Clear);
        Extended(at + [P.Clear], P.ForceFlat);
        Extended(at + [P.Clear] + [P.ForceFlat], P.ResetEstimators);
        at := at + [P.Clear] + [P.ForceFlat] + [P.ResetEstimators];
      }
      Extended(at, P.Evaluate);
      assert actions + Rest(v, pending) == at + [P.Evaluate];
    }
  }
}
