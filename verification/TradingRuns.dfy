/** What holds over whole runs of the trading machine: snapshots and forced
    closes in any order, from the state it is created in. */
module TradingRuns {
  import opened Prelude
  import opened MarketQuality
  import opened TradingMachine

  datatype Event = Tick(input: Input) | Flatten

  function Apply(c: MachineConfig, m: Machine, e: Event): (Machine, Output) {
    match e
    case Tick(i) => Step(c, m, i)
    case Flatten => Flattened(m)
  }

  /** The machine after the first k events. */
  function At(c: MachineConfig, es: seq<Event>, k: nat): Machine
    requires k <= |es|
  {
    if k == 0 then START else Apply(c, At(c, es, k - 1), es[k - 1]).0
  }

  /** What event k reported. */
  function Reported(c: MachineConfig, es: seq<Event>, k: nat): Output
    requires k < |es|
  {
    Apply(c, At(c, es, k), es[k]).1
  }

  predicate Entered(o: Output) {
    o.position.Some? && o.marked.None?
  }

  predicate Exited(o: Output) {
    o.marked.Some? && o.exitReason.Some?
  }

  predicate ForcedClose(o: Output) {
    o.marked.Some? && o.current == Warmup
  }

  // -- consistency --------------------------------------------------------------

  function SignOfWatch(s: TradeState): int {
    if s == WatchLong then 1 else if s == WatchShort then -1 else 0
  }

  /** A position exists exactly in the two held states and is open in that
      direction, so the defensive branch is dead; a watch remembers its own
      sign, so the branch that corrects the sign is dead; confirmations are
      counted only in a watch and never reach the required number. */
  predicate Consistent(c: MachineConfig, m: Machine) {
    && (m.state in {InLong, InShort} <==> m.position.Some?)
    && (m.position.Some? ==> m.position.value.IsOpen() && m.state == HeldState(m.position.value.direction))
    && (SignOfWatch(m.state) != 0 ==> m.confirmationSign == SignOfWatch(m.state))
    && 0 <= m.confirmations < c.entryConfirmations
    && (m.confirmations > 0 ==> SignOfWatch(m.state) != 0)
    && -1 <= m.rearmBlockSign <= 1
  }

  lemma ConsistentStep(c: MachineConfig, m: Machine, e: Event)
    requires ValidConfig(c) && Consistent(c, m)
    ensures Consistent(c, Apply(c, m, e).0)
  {
    if m.position.Some? {
      hide StepFlat, ExitDecision;
    } else {
      hide StepOpen, Watchable, Confirms;
    }
  }

  lemma StartIsConsistent(c: MachineConfig)
    requires ValidConfig(c)
    ensures Consistent(c, START)
  {
  }

  lemma {:induction false} AlwaysConsistent(c: MachineConfig, es: seq<Event>, k: nat)
    requires ValidConfig(c) && k <= |es|
    ensures Consistent(c, At(c, es, k))
  {
    hide Apply, Consistent;
    if k == 0 {
      StartIsConsistent(c);
    } else {
      AlwaysConsistent(c, es, k - 1);
      ConsistentStep(c, At(c, es, k - 1), es[k - 1]);
    }
  }

  /** Each report starts from the state the one before it ended in, and ends in
      the state and position the machine is left in. */
  lemma {:induction false} ReportsChain(c: MachineConfig, es: seq<Event>, k: nat)
    requires ValidConfig(c) && k < |es|
    ensures Reported(c, es, k).previous == (if k == 0 then Warmup else Reported(c, es, k - 1).current)
    ensures Reported(c, es, k).current == At(c, es, k + 1).state
    ensures Reported(c, es, k).position == At(c, es, k + 1).position
  {
    hide Apply, Consistent;
    AlwaysConsistent(c, es, k);
    StepReports(c, At(c, es, k), es[k]);
    if k > 0 {
      AlwaysConsistent(c, es, k - 1);
      StepReports(c, At(c, es, k - 1), es[k - 1]);
    }
  }

  lemma StepReports(c: MachineConfig, m: Machine, e: Event)
    requires ValidConfig(c) && Consistent(c, m)
    ensures var (after, o) := Apply(c, m, e);
      o.previous == m.state && o.current == after.state && o.position == after.position
  {
  }

  // -- the position ledger ------------------------------------------------------

  function Count(c: MachineConfig, es: seq<Event>, k: nat, kind: Output -> bool): nat
    requires k <= |es|
  {
    if k == 0 then 0 else Count(c, es, k - 1, kind) + if kind(Reported(c, es, k - 1)) then 1 else 0
  }

  /** Every entry is matched by an exit, a forced close, or is still open. */
  lemma {:induction false} Ledger(c: MachineConfig, es: seq<Event>, k: nat)
    requires ValidConfig(c) && k <= |es|
    ensures Count(c, es, k, Entered)
         == Count(c, es, k, Exited) + Count(c, es, k, ForcedClose) + (if At(c, es, k).position.Some? then 1 else 0)
  {
    hide Apply, Consistent, Entered, Exited, ForcedClose;
    if k > 0 {
      Ledger(c, es, k - 1);
      AlwaysConsistent(c, es, k - 1);
      OneStepLedger(c, At(c, es, k - 1), es[k - 1]);
    }
  }

  /** How one step moves between flat and open. */
  lemma OneStepLedger(c: MachineConfig, m: Machine, e: Event)
    requires ValidConfig(c) && Consistent(c, m)
    ensures var (after, o) := Apply(c, m, e);
      && (Entered(o) <==> m.position.None? && after.position.Some?)
      && (Exited(o) || ForcedClose(o) <==> m.position.Some? && after.position.None?)
      && !(Exited(o) && ForcedClose(o))
      && (m.position.Some? && after.position.Some? ==> after.position == m.position)
  {
  }

  /** A position that survives a snapshot had its stop unhit by it and has been
      held for less than the maximum time then. */
  lemma {:induction false} HeldPositionsAreWithinLimits(c: MachineConfig, es: seq<Event>, k: nat)
    requires ValidConfig(c) && k < |es|
    requires es[k].Tick? && At(c, es, k + 1).position.Some?
    ensures es[k].input.nowMs - At(c, es, k + 1).position.value.entryMs < c.maxHoldMs
    ensures At(c, es, k).position.Some? ==> !es[k].input.stopHit
  {
    AlwaysConsistent(c, es, k);
  }

  /** The score has turned against a position of direction d. */
  predicate Reversed(c: MachineConfig, d: Direction, i: Input) {
    if d == Long then Score(i) <= -(i.threshold.exit * c.reversalRatio)
    else i.threshold.exit * c.reversalRatio <= Score(i)
  }

  /** Reasons to leave that the minimum hold suspends; only the stop is exempt. */
  ghost predicate WantsOut(c: MachineConfig, p: Position, i: Input) {
    || (c.useTarget && i.targetHit)
    || i.nowMs - p.entryMs >= c.maxHoldMs
    || Reversed(c, p.direction, i)
    || Confidence(i) < c.exitConfidence
    || (c.exitOnQualityLoss && exists r :: r in i.reasons && Critical(r))
  }

  /** A held position survives a snapshot exactly when its stop is unhit and it
      is inside its minimum hold or nothing else speaks against it. */
  lemma {:induction false} SurvivesExactlyWhen(c: MachineConfig, es: seq<Event>, k: nat)
    requires ValidConfig(c) && k < |es| && es[k].Tick? && At(c, es, k).position.Some?
    ensures var p, i := At(c, es, k).position.value, es[k].input;
      && (At(c, es, k + 1).position.Some? <==>
            !i.stopHit && (i.nowMs - p.entryMs < c.minHoldMs || !WantsOut(c, p, i)))
      && (At(c, es, k + 1).position.Some? || Exited(Reported(c, es, k)))
  {
    hide Consistent, Apply, WantsOut;
    AlwaysConsistent(c, es, k);
    HeldStep(c, At(c, es, k), es[k].input);
  }

  lemma HeldStep(c: MachineConfig, m: Machine, i: Input)
    requires ValidConfig(c) && Consistent(c, m) && m.position.Some?
    ensures var ((after, o), p) := (Apply(c, m, Tick(i)), m.position.value);
      && (after.position.Some? <==> !i.stopHit && (i.nowMs - p.entryMs < c.minHoldMs || !WantsOut(c, p, i)))
      && (after.position.Some? || (Exited(o) && o.marked == m.position))
      && o.exitReason == ExitDecision(c, p, i)
  {
    hide Critical;
    TurnsAgainst(c, m.position.value, i);
  }

  lemma TurnsAgainst(c: MachineConfig, p: Position, i: Input)
    requires p.direction != Flat
    ensures Score(i) * p.direction.Signum() as real <= -i.threshold.exit * c.reversalRatio
        <==> Reversed(c, p.direction, i)
  {
    assert -i.threshold.exit * c.reversalRatio == -(i.threshold.exit * c.reversalRatio);
  }

  /** What each reported exit reason tells: the stop is reported exactly when it
      is hit, at any time; every other exit comes after the minimum hold and its
      reason is true, no reason reported before it in the list being so. */
  lemma {:induction false} ExitReasonsExactlyWhen(c: MachineConfig, es: seq<Event>, k: nat)
    requires ValidConfig(c) && k < |es| && Exited(Reported(c, es, k))
    ensures es[k].Tick? && Reported(c, es, k).marked.Some?
    ensures var (o, i) := (Reported(c, es, k), es[k].input);
      var p, reason := o.marked.value, o.exitReason.value;
      var target, late := c.useTarget && i.targetHit, i.nowMs - p.entryMs >= c.maxHoldMs;
      var reversed, unsure := Reversed(c, p.direction, i), Confidence(i) < c.exitConfidence;
      && o.marked == At(c, es, k).position
      && (reason == Stop <==> i.stopHit)
      && (reason != Stop ==> i.nowMs - p.entryMs >= c.minHoldMs)
      && (reason == Target <==> !i.stopHit && target)
      && (reason == Time <==> !i.stopHit && !target && late)
      && (reason == Reversal <==> !i.stopHit && !target && !late && reversed)
      && (reason == ConfidenceLost <==> !i.stopHit && !target && !late && !reversed && unsure)
      && (reason == QualityLost <==> !i.stopHit && !target && !late && !reversed && !unsure)
      && (reason == QualityLost ==> c.exitOnQualityLoss && exists r :: r in i.reasons && Critical(r))
  {
    hide Consistent, Apply;
    AlwaysConsistent(c, es, k);
    assert es[k].Tick? && At(c, es, k).position.Some? && At(c, es, k).position.value.direction != Flat by {
      ExitFromHeld(c, At(c, es, k), es[k]);
    }
    HeldStep(c, At(c, es, k), es[k].input);
    HeldOrExited(c, At(c, es, k), es[k].input);
    TurnsAgainst(c, At(c, es, k).position.value, es[k].input);
  }

  lemma ExitFromHeld(c: MachineConfig, m: Machine, e: Event)
    requires Consistent(c, m) && Exited(Apply(c, m, e).1)
    ensures e.Tick? && m.position.Some? && m.position.value.direction != Flat
  {
  }

  // -- entry discipline ---------------------------------------------------------

  /** Since event a armed it, an unexpired watch of d has been kept up. */
  ghost predicate WatchSince(c: MachineConfig, es: seq<Event>, a: nat, k: nat, d: Direction)
    requires k <= |es|
  {
    && a < k && d != Flat
    && (forall j :: a <= j < k ==> es[j].Tick? && Watchable(c, 0, d, es[j].input))
    && (forall j :: a < j <= k ==> At(c, es, j).state == WatchState(d))
    && (forall j :: a < j < k ==> es[j].input.nowMs <= es[a].input.nowMs + c.watchTimeoutMs)
    && At(c, es, k).watchDeadlineMs == es[a].input.nowMs + c.watchTimeoutMs
    && a < k - At(c, es, k).confirmations
    && (forall j :: k - At(c, es, k).confirmations <= j < k ==> Confirms(c, d, es[j].input))
  }

  /** Event a opens a watch of d: the machine is flat and free to trade, and the
      re-arm block, after this snapshot's score, does not forbid d. */
  ghost predicate Arms(c: MachineConfig, es: seq<Event>, a: nat, d: Direction)
    requires a < |es|
  {
    && d != Flat && es[a].Tick?
    && At(c, es, a).state in {Neutral, WatchLong, WatchShort} && At(c, es, a).state != WatchState(d)
    && Watchable(c, Rearmed(At(c, es, a), es[a].input).rearmBlockSign, d, es[a].input)
  }

  /** A machine found watching has been watching since some event armed it. */
  lemma {:induction false} WatchHasBegun(c: MachineConfig, es: seq<Event>, k: nat, d: Direction) returns (a: nat)
    requires ValidConfig(c) && k <= |es|
    requires d != Flat && At(c, es, k).state == WatchState(d)
    ensures WatchSince(c, es, a, k, d) && Arms(c, es, a, d)
  {
    hide Apply, Consistent, Confirms, Watchable, WatchSince, ValidConfig, Arms;
    assert k > 0 by {
      NoWatchAtStart(d);
    }
    AlwaysConsistent(c, es, k - 1);
    if At(c, es, k - 1).state == WatchState(d) {
      a := WatchHasBegun(c, es, k - 1, d);
      WatchContinues(c, es, a, k - 1, d);
    } else {
      a := k - 1;
      WatchArms(c, es, a, d);
    }
  }

  lemma NoWatchAtStart(d: Direction)
    requires d != Flat
    ensures START.state != WatchState(d)
  {
  }

  lemma WatchArms(c: MachineConfig, es: seq<Event>, a: nat, d: Direction)
    requires ValidConfig(c) && a < |es| && Consistent(c, At(c, es, a)) && d != Flat
    requires At(c, es, a).state != WatchState(d) && At(c, es, a + 1).state == WatchState(d)
    ensures WatchSince(c, es, a, a + 1, d) && Arms(c, es, a, d)
  {
    hide Apply, Consistent, Confirms, Watchable;
    ArmingStep(c, At(c, es, a), es[a], d);
  }

  lemma ArmingStep(c: MachineConfig, m: Machine, e: Event, d: Direction)
    requires ValidConfig(c) && Consistent(c, m) && d != Flat && m.state != WatchState(d)
    requires Apply(c, m, e).0.state == WatchState(d)
    ensures e.Tick? && Watchable(c, 0, d, e.input)
    ensures m.state in {Neutral, WatchLong, WatchShort} && Watchable(c, Rearmed(m, e.input).rearmBlockSign, d, e.input)
    ensures var next := Apply(c, m, e).0;
      next.watchDeadlineMs == e.input.nowMs + c.watchTimeoutMs && next.confirmations == 0
  {
  }

  lemma {:induction false} WatchContinues(c: MachineConfig, es: seq<Event>, a: nat, k: nat, d: Direction)
    requires ValidConfig(c) && k < |es|
    requires WatchSince(c, es, a, k, d) && Consistent(c, At(c, es, k))
    requires At(c, es, k + 1).state == WatchState(d)
    ensures WatchSince(c, es, a, k + 1, d)
  {
    hide Apply, Consistent, Confirms, Watchable;
    OneMoreWatch(c, At(c, es, k), es[k], d);
  }

  lemma OneMoreWatch(c: MachineConfig, m: Machine, e: Event, d: Direction)
    requires ValidConfig(c) && Consistent(c, m) && d != Flat && m.state == WatchState(d)
    requires Apply(c, m, e).0.state == WatchState(d)
    ensures e.Tick? && Watchable(c, 0, d, e.input) && e.input.nowMs <= m.watchDeadlineMs
    ensures var next := Apply(c, m, e).0;
      && next.watchDeadlineMs == m.watchDeadlineMs
      && (next.confirmations == 0 || (next.confirmations == m.confirmations + 1 && Confirms(c, d, e.input)))
  {
  }

  lemma EntryStep(c: MachineConfig, m: Machine, e: Event)
    requires ValidConfig(c) && Consistent(c, m) && Entered(Apply(c, m, e).1)
    ensures var d := Apply(c, m, e).1.position.value.direction;
      && e.Tick? && d != Flat && m.state == WatchState(d)
      && Watchable(c, 0, d, e.input) && Confirms(c, d, e.input)
      && e.input.nowMs <= m.watchDeadlineMs
      && m.confirmations == c.entryConfirmations - 1
      && (c.requireZeroCrossRearm ==> m.rearmBlockSign != d.Signum())
  {
  }

  /** What precedes an entry: the direction was armed at some event a, at least
      entryConfirmations events earlier; ever since it stayed watchable in one
      watch that had not expired; and each of the last entryConfirmations
      snapshots, the entering one included, met every entry condition. */
  ghost predicate Disciplined(c: MachineConfig, es: seq<Event>, a: nat, k: nat, d: Direction)
    requires k < |es|
  {
    && a + c.entryConfirmations <= k
    && (forall j :: a <= j <= k ==> es[j].Tick? && Watchable(c, 0, d, es[j].input))
    && (forall j :: a < j <= k ==>
          Reported(c, es, j).previous == WatchState(d) && es[j].input.nowMs <= es[a].input.nowMs + c.watchTimeoutMs)
    && (forall j :: k - c.entryConfirmations < j <= k ==> Confirms(c, d, es[j].input))
  }

  lemma {:induction false} EntryDiscipline(c: MachineConfig, es: seq<Event>, k: nat)
    requires ValidConfig(c) && k < |es| && Entered(Reported(c, es, k))
    ensures exists a :: Disciplined(c, es, a, k, Reported(c, es, k).position.value.direction)
  {
    hide Apply, Consistent, Confirms, Watchable;
    AlwaysConsistent(c, es, k);
    EntryStep(c, At(c, es, k), es[k]);
    var d := Reported(c, es, k).position.value.direction;
    var a := WatchHasBegun(c, es, k, d);
    forall j | a < j <= k
      ensures Reported(c, es, j).previous == WatchState(d)
    {
      AlwaysConsistent(c, es, j);
      StepReports(c, At(c, es, j), es[j]);
      assert At(c, es, j).state == WatchState(d);
    }
    assert Disciplined(c, es, a, k, d);
  }

  // -- exactly when a position is opened -------------------------------------------

  /** From event a on the signal for d never lapsed and the watch never expired. */
  ghost predicate KeptUp(c: MachineConfig, es: seq<Event>, a: nat, k: nat, d: Direction)
    requires a < |es| && k <= |es| && es[a].Tick?
  {
    forall j :: a < j < k ==>
      es[j].Tick? && Watchable(c, 0, d, es[j].input) && es[j].input.nowMs <= es[a].input.nowMs + c.watchTimeoutMs
  }

  /** Event k is the last of entryConfirmations confirming ones in a row. */
  ghost predicate Confirmed(c: MachineConfig, es: seq<Event>, k: nat, d: Direction)
    requires k < |es|
  {
    forall j :: 0 <= j <= k && k - c.entryConfirmations < j ==> es[j].Tick? && Confirms(c, d, es[j].input)
  }

  /** A watch of d armed at a leads to an entry at k: it is kept up until then,
      and k is the first event after enough others at which enough confirming
      ones have come in a row. Beyond a this speaks of the events alone. */
  ghost predicate LeadsToEntry(c: MachineConfig, es: seq<Event>, a: nat, k: nat, d: Direction)
    requires k < |es|
  {
    && a < k && Arms(c, es, a, d) && KeptUp(c, es, a, k + 1, d)
    && a + c.entryConfirmations <= k && Confirmed(c, es, k, d)
    && forall j :: a < j < k && a + c.entryConfirmations <= j ==> !Confirmed(c, es, j, d)
  }

  /** The entries of a run are exactly those armed, kept up and confirmed. */
  lemma {:induction false} EntersExactlyWhen(c: MachineConfig, es: seq<Event>, k: nat, d: Direction)
    requires ValidConfig(c) && k < |es|
    ensures Entered(Reported(c, es, k)) && Reported(c, es, k).position.value.direction == d
       <==> exists a :: LeadsToEntry(c, es, a, k, d)
  {
    if Entered(Reported(c, es, k)) && Reported(c, es, k).position.value.direction == d {
      var a := EntryIsLedTo(c, es, k, d);
    }
    if exists a :: LeadsToEntry(c, es, a, k, d) {
      var a :| LeadsToEntry(c, es, a, k, d);
      LedToEntry(c, es, a, k, d);
    }
  }

  lemma {:induction false} EntryIsLedTo(c: MachineConfig, es: seq<Event>, k: nat, d: Direction) returns (a: nat)
    requires ValidConfig(c) && k < |es|
    requires Entered(Reported(c, es, k)) && Reported(c, es, k).position.value.direction == d
    ensures LeadsToEntry(c, es, a, k, d)
  {
    hide Apply, Consistent, Confirms, Watchable, Arms;
    AlwaysConsistent(c, es, k);
    EntryStep(c, At(c, es, k), es[k]);
    a := WatchHasBegun(c, es, k, d);
    forall j | a < j < k && a + c.entryConfirmations <= j
      ensures !Confirmed(c, es, j, d)
    {
      if Confirmed(c, es, j, d) {
        ConfirmationsGrow(c, es, a, j + 1 - c.entryConfirmations, j + 1, d);
        AlwaysConsistent(c, es, j + 1);
        ConfirmationsBounded(c, At(c, es, j + 1));
      }
    }
  }

  lemma ConfirmationsBounded(c: MachineConfig, m: Machine)
    requires Consistent(c, m)
    ensures m.confirmations < c.entryConfirmations
  {
  }

  /** In a watch, confirming events in a row are all counted. */
  lemma {:induction false} ConfirmationsGrow(c: MachineConfig, es: seq<Event>, a: nat, from: nat, k: nat, d: Direction)
    requires ValidConfig(c) && a < from <= k <= |es| && d != Flat
    requires forall j :: a < j <= k ==> At(c, es, j).state == WatchState(d)
    requires forall j :: from <= j < k ==> es[j].Tick? && Confirms(c, d, es[j].input)
    ensures At(c, es, k).confirmations >= k - from
  {
    hide Apply, Consistent, Confirms;
    AlwaysConsistent(c, es, k);
    if k == from {
      NoneNegative(c, At(c, es, k));
    } else {
      ConfirmationsGrow(c, es, a, from, k - 1, d);
      AlwaysConsistent(c, es, k - 1);
      ConfirmationCounts(c, At(c, es, k - 1), es[k - 1], d);
    }
  }

  lemma NoneNegative(c: MachineConfig, m: Machine)
    requires Consistent(c, m)
    ensures 0 <= m.confirmations
  {
  }

  lemma ConfirmationCounts(c: MachineConfig, m: Machine, e: Event, d: Direction)
    requires ValidConfig(c) && Consistent(c, m) && d != Flat && m.state == WatchState(d)
    requires e.Tick? && Confirms(c, d, e.input) && Apply(c, m, e).0.state == WatchState(d)
    ensures Apply(c, m, e).0.confirmations == m.confirmations + 1
  {
  }

  /** While a watch is kept up and not yet confirmed, it lasts. */
  lemma {:induction false} WatchLasts(c: MachineConfig, es: seq<Event>, a: nat, k: nat, d: Direction)
    requires ValidConfig(c) && a < k <= |es| && Arms(c, es, a, d) && KeptUp(c, es, a, k, d)
    requires forall j :: a + c.entryConfirmations <= j < k ==> !Confirmed(c, es, j, d)
    ensures WatchSince(c, es, a, k, d)
  {
    hide Apply, Consistent, Confirms, Watchable, WatchSince, Confirmed;
    AlwaysConsistent(c, es, k - 1);
    if k == a + 1 {
      ArmedStep(c, At(c, es, a), es[a], d);
      WatchArms(c, es, a, d);
    } else {
      WatchLasts(c, es, a, k - 1, d);
      WatchSinceMeans(c, es, a, k - 1, d);
      WatchedStep(c, At(c, es, k - 1), es[k - 1], d);
      if At(c, es, k).state == WatchState(d) {
        WatchContinues(c, es, a, k - 1, d);
      } else {
        EnoughConfirmed(c, es, a, k - 1, d);
      }
    }
  }

  lemma WatchSinceMeans(c: MachineConfig, es: seq<Event>, a: nat, k: nat, d: Direction)
    requires ValidConfig(c) && k <= |es| && WatchSince(c, es, a, k, d)
    ensures a < k && es[a].Tick? && At(c, es, k).state == WatchState(d)
    ensures At(c, es, k).watchDeadlineMs == es[a].input.nowMs + c.watchTimeoutMs
    ensures c.requireZeroCrossRearm ==> At(c, es, k).rearmBlockSign != d.Signum()
  {
    hide Apply, Confirms, Consistent, Watchable;
    AlwaysConsistent(c, es, k - 1);
    UnblockedStep(c, At(c, es, k - 1), es[k - 1], d);
  }

  /** A watch that is armed or kept is not of the blocked sign. */
  lemma UnblockedStep(c: MachineConfig, m: Machine, e: Event, d: Direction)
    requires ValidConfig(c) && Consistent(c, m) && d != Flat && Apply(c, m, e).0.state == WatchState(d)
    ensures c.requireZeroCrossRearm ==> Apply(c, m, e).0.rearmBlockSign != d.Signum()
  {
  }

  lemma EnoughConfirmed(c: MachineConfig, es: seq<Event>, a: nat, k: nat, d: Direction)
    requires k < |es| && WatchSince(c, es, a, k, d) && es[k].Tick? && Confirms(c, d, es[k].input)
    requires At(c, es, k).confirmations == c.entryConfirmations - 1
    ensures a + c.entryConfirmations <= k && Confirmed(c, es, k, d)
  {
    hide Confirms, Watchable, At;
  }

  lemma ArmedStep(c: MachineConfig, m: Machine, e: Event, d: Direction)
    requires d != Flat && e.Tick? && m.state in {Neutral, WatchLong, WatchShort} && m.state != WatchState(d)
    requires Watchable(c, Rearmed(m, e.input).rearmBlockSign, d, e.input)
    ensures Apply(c, m, e).0.state == WatchState(d)
  {
  }

  /** A kept watch either goes on or has been confirmed often enough. */
  lemma WatchedStep(c: MachineConfig, m: Machine, e: Event, d: Direction)
    requires ValidConfig(c) && Consistent(c, m) && d != Flat && m.state == WatchState(d) && e.Tick?
    requires c.requireZeroCrossRearm ==> m.rearmBlockSign != d.Signum()
    requires Watchable(c, 0, d, e.input) && e.input.nowMs <= m.watchDeadlineMs
    ensures var (next, o) := Apply(c, m, e);
      if m.confirmations == c.entryConfirmations - 1 && Confirms(c, d, e.input) then
        Entered(o) && o.position.value.direction == d && next.state == HeldState(d)
      else
        next.state == WatchState(d)
  {
  }

  lemma {:induction false} LedToEntry(c: MachineConfig, es: seq<Event>, a: nat, k: nat, d: Direction)
    requires ValidConfig(c) && k < |es| && LeadsToEntry(c, es, a, k, d)
    ensures Entered(Reported(c, es, k)) && Reported(c, es, k).position.value.direction == d
  {
    hide Apply, Consistent, Confirms, Watchable, Arms;
    WatchLasts(c, es, a, k, d);
    WatchSinceMeans(c, es, a, k, d);
    AlwaysConsistent(c, es, k);
    ConfirmationsBounded(c, At(c, es, k));
    ConfirmationsGrow(c, es, a, k + 1 - c.entryConfirmations, k, d);
    WatchedStep(c, At(c, es, k), es[k], d);
  }

  // -- exactly when the other states are left --------------------------------------

  /** A new or reset machine warms up exactly until the first snapshot whose gate
      no longer gives that as a reason, and is then free to watch from the next. */
  lemma {:induction false} WarmsUpExactlyWhile(c: MachineConfig, es: seq<Event>, r: nat, k: nat)
    requires ValidConfig(c) && r <= k <= |es| && (r == 0 || es[r - 1].Flatten?)
    requires forall j :: r <= j < k ==> es[j].Tick?
    requires forall j :: r <= j < k - 1 ==> WarmingUp in es[j].input.reasons
    ensures At(c, es, k).state == if r < k && WarmingUp !in es[k - 1].input.reasons then Neutral else Warmup
  {
    hide StepOpen, StepFlat;
    if r < k {
      WarmsUpExactlyWhile(c, es, r, k - 1);
    }
  }

  /** A watch of d, armed at a, is kept up through event k. */
  ghost predicate Watching(c: MachineConfig, es: seq<Event>, a: nat, k: nat, d: Direction)
    requires k < |es|
  {
    && a <= k && Arms(c, es, a, d) && KeptUp(c, es, a, k + 1, d)
    && forall j :: a < j <= k ==> At(c, es, j).state == WatchState(d)
  }

  /** What a flat machine free to trade does with a snapshot: it enters, watches a
      direction that was armed now or earlier and kept up without expiry, or is
      left in Neutral. */
  lemma {:induction false} FlatMovesExactlyWhen(c: MachineConfig, es: seq<Event>, k: nat, d: Direction)
    requires ValidConfig(c) && k < |es| && es[k].Tick? && d != Flat
    requires At(c, es, k).state in {Neutral, WatchLong, WatchShort}
    ensures var (o, after) := (Reported(c, es, k), At(c, es, k + 1).state);
      && (after == HeldState(d) <==> Entered(o) && o.position.value.direction == d)
      && (after == WatchState(d) <==> !Entered(o) && exists a :: Watching(c, es, a, k, d))
      && after in {Neutral, WatchLong, WatchShort, InLong, InShort}
  {
    hide Apply, Consistent, Confirms, Watchable, Arms, KeptUp;
    AlwaysConsistent(c, es, k);
    AlwaysConsistent(c, es, k + 1);
    FlatStep(c, At(c, es, k), es[k].input, d);
    if At(c, es, k + 1).state == WatchState(d) {
      var a := WatchHasBegun(c, es, k + 1, d);
      assert KeptUp(c, es, a, k + 1, d) by {
        WatchIsKeptUp(c, es, a, k + 1, d);
      }
      assert Watching(c, es, a, k, d);
    }
    if !Entered(Reported(c, es, k)) && exists a :: Watching(c, es, a, k, d) {
      var a :| Watching(c, es, a, k, d);
      StillWatching(c, es, a, k, d);
    }
  }

  lemma WatchIsKeptUp(c: MachineConfig, es: seq<Event>, a: nat, k: nat, d: Direction)
    requires k <= |es| && WatchSince(c, es, a, k, d)
    ensures es[a].Tick? && KeptUp(c, es, a, k, d)
  {
    hide Watchable, Confirms, At;
  }

  lemma FlatStep(c: MachineConfig, m: Machine, i: Input, d: Direction)
    requires ValidConfig(c) && Consistent(c, m) && d != Flat && m.state in {Neutral, WatchLong, WatchShort}
    ensures var (after, o) := Apply(c, m, Tick(i));
      && (after.state == HeldState(d) <==> Entered(o) && o.position.value.direction == d)
      && (after.state == WatchState(d) ==> !Entered(o))
      && after.state in {Neutral, WatchLong, WatchShort, InLong, InShort}
  {
    hide Confirms;
  }

  lemma {:induction false} StillWatching(c: MachineConfig, es: seq<Event>, a: nat, k: nat, d: Direction)
    requires ValidConfig(c) && k < |es| && Watching(c, es, a, k, d) && !Entered(Reported(c, es, k))
    ensures At(c, es, k + 1).state == WatchState(d)
  {
    hide Apply, Consistent, Confirms, Watchable;
    AlwaysConsistent(c, es, k);
    if a == k {
      ArmedStep(c, At(c, es, k), es[k], d);
    } else {
      WatchFrom(c, es, a, k, d);
      WatchSinceMeans(c, es, a, k, d);
      WatchedStep(c, At(c, es, k), es[k], d);
    }
  }

  lemma {:induction false} WatchFrom(c: MachineConfig, es: seq<Event>, a: nat, k: nat, d: Direction)
    requires ValidConfig(c) && a < k <= |es| && Arms(c, es, a, d)
    requires forall j :: a < j <= k ==> At(c, es, j).state == WatchState(d)
    ensures WatchSince(c, es, a, k, d)
  {
    hide Apply, Consistent, Confirms, Watchable, WatchSince;
    AlwaysConsistent(c, es, k - 1);
    if k == a + 1 {
      WatchArms(c, es, a, d);
    } else {
      WatchFrom(c, es, a, k - 1, d);
      WatchContinues(c, es, a, k - 1, d);
    }
  }

  /** Where an open position comes from: an entry at its entry time, with the
      quantity filled then or else the configured one, kept ever since. */
  lemma {:induction false} PositionHasBegun(c: MachineConfig, es: seq<Event>, k: nat) returns (n: nat)
    requires ValidConfig(c) && k <= |es| && At(c, es, k).position.Some?
    ensures n < k && es[n].Tick? && Entered(Reported(c, es, n)) && NoReset(es, n, k)
    ensures var (p, i) := (At(c, es, k).position.value, es[n].input);
      p.entryMs == i.nowMs && p.quantity == if 0 < i.filledQuantity then i.filledQuantity else c.quantity
    ensures forall j :: n < j <= k ==> At(c, es, j).position == At(c, es, k).position
  {
    hide Apply, Consistent, Entered;
    assert 0 < k;
    AlwaysConsistent(c, es, k - 1);
    OpenStep(c, At(c, es, k - 1), es[k - 1]);
    n := k - 1;
    if At(c, es, k - 1).position.Some? {
      n := PositionHasBegun(c, es, k - 1);
    }
  }

  lemma OpenStep(c: MachineConfig, m: Machine, e: Event)
    requires ValidConfig(c) && Consistent(c, m) && Apply(c, m, e).0.position.Some?
    ensures e.Tick?
    ensures var (p, i) := (Apply(c, m, e).0.position, e.input);
      if m.position.Some? then p == m.position
      else
        && Entered(Apply(c, m, e).1) && p.value.entryMs == i.nowMs
        && p.value.quantity == if 0 < i.filledQuantity then i.filledQuantity else c.quantity
  {
  }

  // -- between an exit and the next entry ---------------------------------------

  /** The injected clock never runs backwards. */
  predicate ClockMonotone(es: seq<Event>) {
    forall i, j :: 0 <= i < j < |es| && es[i].Tick? && es[j].Tick? ==> es[i].input.nowMs <= es[j].input.nowMs
  }

  predicate NoReset(es: seq<Event>, from: nat, to: nat)
    requires to <= |es|
  {
    forall j :: from <= j < to ==> es[j].Tick?
  }

  predicate CoolingDown(s: TradeState) {
    s in {ExitLong, ExitShort, Cooldown}
  }

  lemma {:induction false} CooldownKept(c: MachineConfig, es: seq<Event>, e: nat, k: nat)
    requires ValidConfig(c) && ClockMonotone(es) && e < k <= |es|
    requires Exited(Reported(c, es, e)) && NoReset(es, e, k)
    ensures At(c, es, k).cooldownUntilMs >= es[e].input.nowMs + c.cooldownMs
    ensures CoolingDown(At(c, es, k).state) || es[k - 1].input.nowMs >= es[e].input.nowMs + c.cooldownMs
  {
    hide Apply, Consistent, Exited;
    AlwaysConsistent(c, es, k - 1);
    CooldownStep(c, At(c, es, k - 1), es[k - 1].input);
    if k > e + 1 {
      CooldownKept(c, es, e, k - 1);
    }
  }

  /** An exit starts a cooldown from now; nothing else moves its end, and a
      machine stops cooling down only at or after that end. */
  lemma CooldownStep(c: MachineConfig, m: Machine, i: Input)
    requires ValidConfig(c) && Consistent(c, m)
    ensures var (after, o) := Apply(c, m, Tick(i));
      && (Exited(o) ==> after.cooldownUntilMs == i.nowMs + c.cooldownMs && CoolingDown(after.state))
      && (!Exited(o) ==> after.cooldownUntilMs == m.cooldownUntilMs)
      && (CoolingDown(m.state) && !CoolingDown(after.state) ==> i.nowMs >= m.cooldownUntilMs || c.cooldownMs == 0.0)
  {
  }

  /** No entry comes sooner than the cooldown after any exit since the last reset. */
  lemma {:induction false} NoEntryDuringCooldown(c: MachineConfig, es: seq<Event>, e: nat, k: nat)
    requires ValidConfig(c) && ClockMonotone(es) && e < k < |es|
    requires Exited(Reported(c, es, e)) && Entered(Reported(c, es, k)) && NoReset(es, e, k)
    ensures es[k].Tick? && es[k].input.nowMs >= es[e].input.nowMs + c.cooldownMs
  {
    AlwaysConsistent(c, es, k);
    EntryStep(c, At(c, es, k), es[k]);
    CooldownKept(c, es, e, k);
  }

  /** No snapshot since the exit has reached the end of its cooldown. */
  ghost predicate Waiting(c: MachineConfig, es: seq<Event>, e: nat, k: nat)
    requires e < k <= |es| && NoReset(es, e, k)
  {
    forall j :: e < j < k ==> 0.0 < c.cooldownMs && es[j].input.nowMs < es[e].input.nowMs + c.cooldownMs
  }

  /** After an exit the machine cools down exactly until the first snapshot at
      least cooldownMs later, and that snapshot leaves it in Neutral. On a clock
      that does not run backwards a cooldown of zero ends with the next one. */
  lemma {:induction false} CoolsDownExactlyWhile(c: MachineConfig, es: seq<Event>, e: nat, k: nat, d: Direction)
    requires ValidConfig(c) && k <= |es| && LastExit(c, es, e, k, d)
    ensures CoolingDown(At(c, es, k).state) <==> Waiting(c, es, e, k)
    ensures CoolingDown(At(c, es, k).state) ==> At(c, es, k).state == if k == e + 1 then ExitState(d) else Cooldown
    ensures e + 1 < k && Waiting(c, es, e, k - 1) && !Waiting(c, es, e, k) ==> At(c, es, k).state == Neutral
  {
    hide Apply, Consistent, Exited;
    AlwaysConsistent(c, es, k - 1);
    if k == e + 1 {
      ExitStep(c, At(c, es, e), es[e].input);
    } else {
      CoolsDownExactlyWhile(c, es, e, k - 1, d);
      CooldownEnds(c, es, e, k - 1, d);
      assert es[k - 1] == Tick(es[k - 1].input) && !Exited(Reported(c, es, k - 1));
      WaitStep(c, At(c, es, k - 1), es[k - 1].input);
      WaitingGrows(c, es, e, k);
      if k - 1 > e + 1 && Waiting(c, es, e, k - 1) {
        assert 0.0 < c.cooldownMs by {
          assert e < e + 1 < k - 1;
        }
      }
    }
  }

  lemma WaitingGrows(c: MachineConfig, es: seq<Event>, e: nat, k: nat)
    requires e + 1 < k <= |es| && NoReset(es, e, k)
    ensures Waiting(c, es, e, k) <==>
      Waiting(c, es, e, k - 1) && 0.0 < c.cooldownMs && es[k - 1].input.nowMs < es[e].input.nowMs + c.cooldownMs
  {
    assert es[k - 1].Tick?;
    if Waiting(c, es, e, k - 1) && 0.0 < c.cooldownMs && es[k - 1].input.nowMs < es[e].input.nowMs + c.cooldownMs {
      forall j | e < j < k
        ensures es[j].input.nowMs < es[e].input.nowMs + c.cooldownMs
      {
      }
    }
  }

  lemma {:induction false} CooldownEnds(c: MachineConfig, es: seq<Event>, e: nat, k: nat, d: Direction)
    requires ValidConfig(c) && k <= |es| && LastExit(c, es, e, k, d)
    ensures At(c, es, k).cooldownUntilMs == es[e].input.nowMs + c.cooldownMs
  {
    hide Apply, Consistent, Exited;
    AlwaysConsistent(c, es, k - 1);
    assert es[k - 1] == Tick(es[k - 1].input);
    CooldownStep(c, At(c, es, k - 1), es[k - 1].input);
    if k > e + 1 {
      assert !Exited(Reported(c, es, k - 1));
      CooldownEnds(c, es, e, k - 1, d);
    }
  }

  /** One snapshot of a cooldown; nothing but an exit starts one. */
  lemma WaitStep(c: MachineConfig, m: Machine, i: Input)
    requires ValidConfig(c) && Consistent(c, m) && !Exited(Apply(c, m, Tick(i)).1)
    ensures var next := Apply(c, m, Tick(i)).0;
      if !CoolingDown(m.state) then !CoolingDown(next.state)
      else next.state == if i.nowMs < m.cooldownUntilMs && (0.0 < c.cooldownMs || m.state == Cooldown) then Cooldown
                         else Neutral
  {
  }

  /** Some snapshot strictly between e and k had a score without the sign of d. */
  ghost predicate Flipped(es: seq<Event>, e: nat, k: nat, d: Direction)
    requires k <= |es|
  {
    exists j :: e < j < k && es[j].Tick? && Sign(Score(es[j].input)) != d.Signum()
  }

  /** The re-arm block of an exit in direction d lasts until the score flips. */
  lemma {:induction false} RearmKept(c: MachineConfig, es: seq<Event>, e: nat, k: nat, d: Direction)
    requires ValidConfig(c) && c.requireZeroCrossRearm && e < k <= |es|
    requires Exited(Reported(c, es, e)) && Reported(c, es, e).marked.value.direction == d && NoReset(es, e, k)
    ensures d != Flat
    ensures At(c, es, k).rearmBlockSign == d.Signum() || Flipped(es, e, k, d)
    ensures At(c, es, k).position.Some? ==> Flipped(es, e, k, d)
  {
    hide Apply, Consistent;
    AlwaysConsistent(c, es, k - 1);
    var m, i := At(c, es, k - 1), es[k - 1].input;
    if k == e + 1 {
      ExitStep(c, m, i);
    } else {
      RearmKept(c, es, e, k - 1, d);
      if Sign(Score(i)) != d.Signum() {
        assert Flipped(es, e, k, d);
      } else if !Flipped(es, e, k - 1, d) {
        RearmStep(c, m, i, d);
      }
    }
  }

  /** The latest exit before k was at e, in direction d, and nothing was reset since. */
  ghost predicate LastExit(c: MachineConfig, es: seq<Event>, e: nat, k: nat, d: Direction)
    requires k <= |es|
  {
    && e < k && NoReset(es, e, k)
    && Exited(Reported(c, es, e)) && Reported(c, es, e).marked.value.direction == d
    && forall j :: e < j < k ==> !Exited(Reported(c, es, j))
  }

  /** The block of an exit is in force exactly as long as every score since has
      had the sign of its direction: a score of zero lifts it, and so does an
      unusable composite, which counts as zero. */
  lemma {:induction false} RearmedExactlyWhen(c: MachineConfig, es: seq<Event>, e: nat, k: nat, d: Direction)
    requires ValidConfig(c) && k <= |es| && LastExit(c, es, e, k, d)
    ensures d != Flat && At(c, es, k).rearmBlockSign in {0, d.Signum()}
    ensures At(c, es, k).rearmBlockSign == 0 <==> Flipped(es, e, k, d)
  {
    hide Apply, Consistent, Exited;
    AlwaysConsistent(c, es, k - 1);
    var m, i := At(c, es, k - 1), es[k - 1].input;
    if k == e + 1 {
      ExitStep(c, m, i);
    } else {
      RearmedExactlyWhen(c, es, e, k - 1, d);
      assert es[k - 1] == Tick(i) && !Exited(Reported(c, es, k - 1));
      BlockStep(c, m, i);
      if Sign(Score(i)) != d.Signum() {
        assert Flipped(es, e, k, d);
      }
    }
  }

  lemma BlockStep(c: MachineConfig, m: Machine, i: Input)
    requires ValidConfig(c) && Consistent(c, m) && !Exited(Apply(c, m, Tick(i)).1)
    ensures Apply(c, m, Tick(i)).0.rearmBlockSign == if Sign(Score(i)) == m.rearmBlockSign then m.rearmBlockSign else 0
  {
  }

  /** After an exit in direction d a flat machine arms on any watchable signal,
      except that with re-arming required one for d again must wait for a flip. */
  lemma {:induction false} ArmsAgainExactlyWhen(c: MachineConfig, es: seq<Event>, e: nat, a: nat, d: Direction,
                                                next: Direction)
    requires ValidConfig(c) && a < |es| && LastExit(c, es, e, a, d) && next != Flat
    ensures Arms(c, es, a, next) <==>
      && es[a].Tick? && Watchable(c, 0, next, es[a].input)
      && At(c, es, a).state in {Neutral, WatchLong, WatchShort} && At(c, es, a).state != WatchState(next)
      && (c.requireZeroCrossRearm && next == d ==> Flipped(es, e, a, d))
  {
    hide Apply, Exited, LastExit, Flipped;
    RearmedExactlyWhen(c, es, e, a, d);
  }

  lemma ExitStep(c: MachineConfig, m: Machine, i: Input)
    requires ValidConfig(c) && Consistent(c, m) && Exited(Apply(c, m, Tick(i)).1)
    ensures var (after, o) := Apply(c, m, Tick(i));
      && o.marked.value.direction != Flat && after.position.None?
      && after.rearmBlockSign == o.marked.value.direction.Signum()
      && after.state == ExitState(o.marked.value.direction)
  {
  }

  /** While blocked and with a score of the blocked sign, a flat machine stays
      flat and blocked. */
  lemma RearmStep(c: MachineConfig, m: Machine, i: Input, d: Direction)
    requires ValidConfig(c) && Consistent(c, m) && c.requireZeroCrossRearm && d != Flat
    requires m.position.None? && m.rearmBlockSign == d.Signum() == Sign(Score(i))
    ensures var next := Apply(c, m, Tick(i)).0; next.position.None? && next.rearmBlockSign == d.Signum()
  {
  }

  /** A position leaves only through a reported exit. */
  lemma {:induction false} ExitBetween(c: MachineConfig, es: seq<Event>, k: nat, l: nat)
    requires ValidConfig(c) && k < l <= |es|
    requires Entered(Reported(c, es, k)) && NoReset(es, k, l)
    ensures At(c, es, l).position == Reported(c, es, k).position
         || exists e ::
              k < e < l && Exited(Reported(c, es, e)) && Reported(c, es, e).marked == Reported(c, es, k).position
  {
    hide Apply, Consistent, Exited;
    ReportsChain(c, es, k);
    AlwaysConsistent(c, es, l - 1);
    if l > k + 1 {
      ExitBetween(c, es, k, l - 1);
      if At(c, es, l - 1).position == Reported(c, es, k).position {
        HeldOrExited(c, At(c, es, l - 1), es[l - 1].input);
        assert es[l - 1] == Tick(es[l - 1].input);
        assert At(c, es, l).position == At(c, es, l - 1).position || Exited(Reported(c, es, l - 1));
      }
    }
  }

  lemma HeldOrExited(c: MachineConfig, m: Machine, i: Input)
    requires ValidConfig(c) && Consistent(c, m) && m.position.Some?
    ensures var (next, o) := Apply(c, m, Tick(i));
      next.position == m.position || (Exited(o) && o.marked == m.position)
  {
  }

  /** Two entries in one direction are separated by the exit of the first and,
      later than that exit, by a snapshot whose score does not have that sign. */
  lemma {:induction false} RearmSeparatesEntries(c: MachineConfig, es: seq<Event>, k: nat, l: nat)
    requires ValidConfig(c) && c.requireZeroCrossRearm && k < l < |es| && NoReset(es, k, l)
    requires Entered(Reported(c, es, k)) && Entered(Reported(c, es, l))
    requires Reported(c, es, k).position.value.direction == Reported(c, es, l).position.value.direction
    ensures var d := Reported(c, es, l).position.value.direction;
      exists e, j :: k < e < j < l && Exited(Reported(c, es, e)) && Sign(Score(es[j].input)) != d.Signum()
  {
    hide Apply, Consistent, Exited;
    var d := Reported(c, es, l).position.value.direction;
    AlwaysConsistent(c, es, k);
    AlwaysConsistent(c, es, l);
    EntryStep(c, At(c, es, k), es[k]);
    EntryStep(c, At(c, es, l), es[l]);
    ExitBetween(c, es, k, l);
    assert At(c, es, l).position.None? by {
      OneStepLedger(c, At(c, es, l), es[l]);
    }
    var e :| k < e < l && Exited(Reported(c, es, e)) && Reported(c, es, e).marked == Reported(c, es, k).position;
    RearmKept(c, es, e, l, d);
    var j :| e < j < l && es[j].Tick? && Sign(Score(es[j].input)) != d.Signum();
  }

  // -- long/short mirror --------------------------------------------------------

  function MirrorDirection(d: Direction): Direction {
    match d
    case Flat => Flat
    case Long => Short
    case Short => Long
  }

  function MirrorState(s: TradeState): TradeState {
    match s
    case WatchLong => WatchShort
    case WatchShort => WatchLong
    case InLong => InShort
    case InShort => InLong
    case ExitLong => ExitShort
    case ExitShort => ExitLong
    case _ => s
  }

  function MirrorPosition(p: Option<Position>): Option<Position> {
    if p.Some? then Some(p.value.(direction := MirrorDirection(p.value.direction))) else None
  }

  function MirrorMachine(m: Machine): Machine {
    m.(state := MirrorState(m.state), position := MirrorPosition(m.position),
       confirmationSign := -m.confirmationSign, rearmBlockSign := -m.rearmBlockSign)
  }

  function MirrorOutput(o: Output): Output {
    Output(MirrorState(o.previous), MirrorState(o.current), MirrorPosition(o.position), MirrorPosition(o.marked),
           o.exitReason)
  }

  function MirrorInput(i: Input): Input {
    i.(composite := i.composite.(smoothed := -i.composite.smoothed),
       ltp := if i.ltp.Some? then Some(LtpFeature(i.ltp.value.valid, -i.ltp.value.value)) else None)
  }

  function MirrorEvent(e: Event): Event {
    match e
    case Tick(i) => Tick(MirrorInput(i))
    case Flatten => Flatten
  }

  function MirrorEvents(es: seq<Event>): seq<Event> {
    Mapped(es, MirrorEvent)
  }

  lemma MirrorExit(c: MachineConfig, p: Position, i: Input)
    ensures ExitDecision(c, p.(direction := MirrorDirection(p.direction)), MirrorInput(i)) == ExitDecision(c, p, i)
  {
  }

  lemma MirrorConditions(c: MachineConfig, block: int, d: Direction, i: Input)
    ensures DirectionOf(Score(MirrorInput(i))) == MirrorDirection(DirectionOf(Score(i)))
    ensures Watchable(c, -block, MirrorDirection(d), MirrorInput(i)) <==> Watchable(c, block, d, i)
    ensures Confirms(c, MirrorDirection(d), MirrorInput(i)) <==> Confirms(c, d, i)
    ensures Watchable(c, block, d, i) ==> d != Flat
  {
  }

  lemma MirrorFlat(c: MachineConfig, m: Machine, i: Input)
    requires m.state in {Neutral, WatchLong, WatchShort} && m.position.None?
    ensures var (after, o) := StepFlat(c, m, i);
      StepFlat(c, MirrorMachine(m), MirrorInput(i)) == (MirrorMachine(after), MirrorOutput(o))
  {
    hide Watchable, Confirms, Score;
    MirrorConditions(c, m.rearmBlockSign, DirectionOf(Score(i)), i);
  }

  lemma MirrorOpen(c: MachineConfig, m: Machine, i: Input)
    requires m.position.Some? && m.position.value.IsOpen() && m.state == HeldState(m.position.value.direction)
    ensures var (after, o) := StepOpen(c, m, m.position.value, i);
      var p := MirrorPosition(m.position).value;
      StepOpen(c, MirrorMachine(m), p, MirrorInput(i)) == (MirrorMachine(after), MirrorOutput(o))
  {
    hide ExitDecision;
    MirrorExit(c, m.position.value, i);
  }

  lemma MirrorStep(c: MachineConfig, m: Machine, e: Event)
    requires Consistent(c, m)
    ensures var (after, o) := Apply(c, m, e);
      Apply(c, MirrorMachine(m), MirrorEvent(e)) == (MirrorMachine(after), MirrorOutput(o))
  {
    hide Flattened, Step, MirrorMachine, MirrorOutput, MirrorInput, Consistent;
    match e
    case Flatten => MirrorFlattened(m);
    case Tick(i) => MirrorTick(c, m, i);
  }

  lemma MirrorTick(c: MachineConfig, m: Machine, i: Input)
    requires Consistent(c, m)
    ensures var (after, o) := Step(c, m, i);
      Step(c, MirrorMachine(m), MirrorInput(i)) == (MirrorMachine(after), MirrorOutput(o))
  {
    MirrorRearmed(m, i);
    if m.position.Some? {
      MirrorHeld(c, m, i);
    } else if m.state in {Neutral, WatchLong, WatchShort} {
      MirrorWatching(c, m, i);
    } else {
      MirrorWaiting(c, m, i);
    }
  }

  lemma MirrorHeld(c: MachineConfig, m: Machine, i: Input)
    requires Consistent(c, m) && m.position.Some?
    ensures var (after, o) := Step(c, m, i);
      Step(c, MirrorMachine(m), MirrorInput(i)) == (MirrorMachine(after), MirrorOutput(o))
  {
    hide StepOpen, StepFlat, Rearmed, MirrorInput, MirrorOutput;
    MirrorRearmed(m, i);
    MirrorOpen(c, Rearmed(m, i), i);
  }

  lemma MirrorWatching(c: MachineConfig, m: Machine, i: Input)
    requires m.state in {Neutral, WatchLong, WatchShort} && m.position.None?
    ensures var (after, o) := Step(c, m, i);
      Step(c, MirrorMachine(m), MirrorInput(i)) == (MirrorMachine(after), MirrorOutput(o))
  {
    hide StepOpen, StepFlat, Rearmed, MirrorInput, MirrorOutput;
    MirrorRearmed(m, i);
    MirrorFlat(c, Rearmed(m, i), i);
  }

  /** Warmup, just closed, or cooling down: the clock decides, not the side. */
  lemma MirrorWaiting(c: MachineConfig, m: Machine, i: Input)
    requires m.state in {Warmup, ExitLong, ExitShort, Cooldown}
    ensures var (after, o) := Step(c, m, i);
      Step(c, MirrorMachine(m), MirrorInput(i)) == (MirrorMachine(after), MirrorOutput(o))
  {
    hide StepOpen, StepFlat, Rearmed;
    MirrorRearmed(m, i);
  }

  lemma MirrorFlattened(m: Machine)
    ensures Flattened(MirrorMachine(m)) == (MirrorMachine(START), MirrorOutput(Flattened(m).1))
    ensures Flattened(m).0 == START
  {
    MirrorOfStart();
    hide MirrorMachine;
    var o, mirrored := Flattened(m).1, Flattened(MirrorMachine(m)).1;
    MirrorParts(m);
    assert mirrored.marked == MirrorPosition(o.marked);
    assert mirrored.previous == MirrorState(o.previous);
    assert mirrored == MirrorOutput(o);
  }

  lemma MirrorParts(m: Machine)
    ensures MirrorMachine(m).state == MirrorState(m.state) && MirrorMachine(m).position == MirrorPosition(m.position)
  {
  }

  lemma MirrorRearmed(m: Machine, i: Input)
    ensures Rearmed(MirrorMachine(m), MirrorInput(i)) == MirrorMachine(Rearmed(m, i))
    ensures Rearmed(m, i) == m.(rearmBlockSign := Rearmed(m, i).rearmBlockSign)
  {
  }

  lemma MirrorOfStart()
    ensures MirrorMachine(START) == START
  {
  }

  /** Negating scores and traded-price readings turns every run into the run
      with long and short exchanged, report by report. */
  lemma {:induction false} MirrorRun(c: MachineConfig, es: seq<Event>, k: nat)
    requires ValidConfig(c) && k <= |es|
    ensures At(c, MirrorEvents(es), k) == MirrorMachine(At(c, es, k))
    ensures k < |es| ==> Reported(c, MirrorEvents(es), k) == MirrorOutput(Reported(c, es, k))
  {
    hide Apply, MirrorMachine, MirrorOutput, MirrorEvent, Consistent;
    MirrorOfStart();
    if k > 0 {
      MirrorRun(c, es, k - 1);
      AlwaysConsistent(c, es, k - 1);
      MirrorStep(c, At(c, es, k - 1), es[k - 1]);
    }
    if k < |es| {
      AlwaysConsistent(c, es, k);
      MirrorStep(c, At(c, es, k), es[k]);
    }
  }

  // -- less than documented is enough -----------------------------------------------

  /** A long signal, as strong as its entry threshold asks and no stronger. */
  function AtThreshold(score: real, nowMs: real): Input {
    Input(nowMs, CompositeResult(true, score, 1.0), Threshold(score, score, score), true, [],
          Some(LtpFeature(true, 1.0)), false, false, true, 1)
  }

  /** Such signals only, except that the position they open is stopped out, and
      that one composite after that is unusable or zero. */
  function AgainAt(c: MachineConfig, score: real, zero: CompositeResult, k: nat): Input {
    var i := AtThreshold(score, if k < c.entryConfirmations + 3 then 0.0 else c.cooldownMs);
    if k == c.entryConfirmations + 2 then i.(stopHit := true)
    else if k == c.entryConfirmations + 3 then i.(composite := zero)
    else i
  }

  function Again(c: MachineConfig, score: real, zero: CompositeResult): (es: seq<Event>)
    requires ValidConfig(c)
    ensures |es| == 2 * c.entryConfirmations + 5
    ensures forall k :: 0 <= k < |es| ==> es[k] == Tick(AgainAt(c, score, zero, k))
  {
    seq(2 * c.entryConfirmations + 5, k requires 0 <= k => Tick(AgainAt(c, score, zero, k)))
  }

  lemma SignalEnters(c: MachineConfig, es: seq<Event>, a: nat, score: real, nowMs: real)
    requires ValidConfig(c) && 0.0 < score && 0.0 <= c.oppositionThreshold && a + c.entryConfirmations < |es|
    requires forall j :: a <= j <= a + c.entryConfirmations ==> es[j] == Tick(AtThreshold(score, nowMs))
    requires At(c, es, a).state == Neutral && At(c, es, a).rearmBlockSign == 0
    ensures var k := a + c.entryConfirmations;
      Entered(Reported(c, es, k)) && Reported(c, es, k).position.value.direction == Long
  {
    hide At;
    var i := AtThreshold(score, nowMs);
    assert Watchable(c, 0, Long, i) && Confirms(c, Long, i);
    assert LeadsToEntry(c, es, a, a + c.entryConfirmations, Long);
    hide LeadsToEntry;
    LedToEntry(c, es, a, a + c.entryConfirmations, Long);
  }

  lemma OutOfWarmup(c: MachineConfig, es: seq<Event>, score: real)
    requires es != [] && es[0] == Tick(AtThreshold(score, 0.0))
    ensures At(c, es, 1).state == Neutral && At(c, es, 1).rearmBlockSign == 0
  {
    assert At(c, es, 0) == START;
  }

  /** A score that equals the entry threshold and never exceeds it is enough to
      enter, under every configuration. */
  lemma {:induction false} EntryAtEquality(c: MachineConfig, score: real)
    requires ValidConfig(c) && 0.0 < score && 0.0 <= c.oppositionThreshold
    ensures exists es: seq<Event>, k: nat ::
      && k < |es| && Entered(Reported(c, es, k))
      && forall j :: 0 <= j < |es| ==> es[j].Tick? && Abs(Score(es[j].input)) <= es[j].input.threshold.entry
  {
    var es := seq(c.entryConfirmations + 2, _ => Tick(AtThreshold(score, 0.0)));
    OutOfWarmup(c, es, score);
    hide At;
    SignalEnters(c, es, 1, score, 0.0);
  }

  /** The scores up to n are positive but for the one at z, which is no score or zero. */
  ghost predicate NeverCrosses(es: seq<Event>, z: nat) {
    && z < |es| && es[z].Tick? && Score(es[z].input) == 0.0
    && forall j :: 0 <= j < |es| && j != z ==> es[j].Tick? && es[j].input.composite.valid && 0.0 < Score(es[j].input)
  }

  /** One composite that is unusable, or zero, between an exit and the next entry
      is enough to enter again in the same direction, although the score never
      crosses to the other side: under every configuration. */
  lemma {:induction false} ReentryWithoutCrossing(c: MachineConfig, score: real, zero: CompositeResult)
    requires ValidConfig(c) && 0.0 < score && 0.0 <= c.oppositionThreshold
    requires !zero.valid || zero.smoothed == 0.0
    ensures exists es: seq<Event>, k: nat, e: nat, z: nat, l: nat ::
      && k < e < z < l < |es| && ClockMonotone(es) && NeverCrosses(es, z) && es[z].input.composite == zero
      && Entered(Reported(c, es, k)) && Exited(Reported(c, es, e)) && Entered(Reported(c, es, l))
      && Reported(c, es, k).position.value.direction == Reported(c, es, l).position.value.direction == Long
  {
    var es, n := Again(c, score, zero), c.entryConfirmations;
    hide At, Entered, Exited, Apply, Consistent, Reported, ClockMonotone, Again;
    OutOfWarmup(c, es, score);
    SignalEnters(c, es, 1, score, 0.0);
    StoppedAndCleared(c, es, n + 1, zero);
    SignalEnters(c, es, n + 4, score, c.cooldownMs);
    AgainNeverCrosses(c, score, zero);
    hide NeverCrosses, AgainAt;
  }

  lemma AgainNeverCrosses(c: MachineConfig, score: real, zero: CompositeResult)
    requires ValidConfig(c) && 0.0 < score && (!zero.valid || zero.smoothed == 0.0)
    ensures var es := Again(c, score, zero); ClockMonotone(es) && NeverCrosses(es, c.entryConfirmations + 3)
  {
    hide Again;
  }

  lemma StoppedAndCleared(c: MachineConfig, es: seq<Event>, k: nat, zero: CompositeResult)
    requires ValidConfig(c) && k + 2 < |es| && (!zero.valid || zero.smoothed == 0.0)
    requires Entered(Reported(c, es, k)) && Reported(c, es, k).position.value.direction == Long
    requires es[k + 1].Tick? && es[k + 1].input.stopHit && es[k + 1].input.nowMs == 0.0
    requires es[k + 2].Tick? && es[k + 2].input.nowMs == c.cooldownMs && es[k + 2].input.composite == zero
    ensures Exited(Reported(c, es, k + 1))
    ensures At(c, es, k + 3).state == Neutral && At(c, es, k + 3).rearmBlockSign == 0
  {
    hide Consistent, Apply;
    AlwaysConsistent(c, es, k + 1);
    ReportsChain(c, es, k);
    StopStep(c, At(c, es, k + 1), es[k + 1].input);
    ZeroStep(c, At(c, es, k + 2), es[k + 2].input);
    NextIs(c, es, k + 1);
    NextIs(c, es, k + 2);
  }

  lemma NextIs(c: MachineConfig, es: seq<Event>, k: nat)
    requires k < |es|
    ensures At(c, es, k + 1) == Apply(c, At(c, es, k), es[k]).0 && Reported(c, es, k) == Apply(c, At(c, es, k), es[k]).1
  {
  }

  lemma StopStep(c: MachineConfig, m: Machine, i: Input)
    requires Consistent(c, m) && m.position.Some? && m.position.value.direction == Long && i.stopHit
    ensures var (next, o) := Apply(c, m, Tick(i));
      Exited(o) && next.state == ExitLong && next.cooldownUntilMs == i.nowMs + c.cooldownMs
  {
  }

  lemma ZeroStep(c: MachineConfig, m: Machine, i: Input)
    requires m.state == ExitLong ==> m.cooldownUntilMs <= i.nowMs && Score(i) == 0.0
    ensures m.state == ExitLong ==>
      var next := Apply(c, m, Tick(i)).0; next.state == Neutral && next.rearmBlockSign == 0
  {
  }
}
