/** The gap flag between the feed thread and the engine thread
    (snapshot_quant_v4/engine/quant_engine.py:287-304, 428-470), as single steps
    that may interleave in any order. Announcing a gap stores a flag. The engine
    thread judges a snapshot, perhaps announces a gap of its own, reads the flag,
    clears it, closes the position and resets its estimators, then evaluates. */
module GapProtocol {

  datatype Phase =
    | Idle
    | RejectedWithGap
    | AcceptedWithGap
    | Accepted
    | Seen
    | Cleared
    | Flattened
    | Ready

  datatype Action =
    | Notify
    | Reject(gap: bool)
    | Accept(gap: bool)
    | NoteOwn
    | ReadFlag
    | Clear
    | ForceFlat
    | ResetEstimators
    | Evaluate

  datatype State = State(phase: Phase, pending: bool)

  const INITIAL := State(Idle, false)

  /** The feed thread may announce a gap at any point; the engine thread follows
      its program. */
  predicate Enabled(s: State, a: Action) {
    match a
    case Notify => true
    case Reject(_) => s.phase == Idle
    case Accept(_) => s.phase == Idle
    case NoteOwn => s.phase in {RejectedWithGap, AcceptedWithGap}
    case ReadFlag => s.phase == Accepted
    case Clear => s.phase == Seen
    case ForceFlat => s.phase == Cleared
    case ResetEstimators => s.phase == Flattened
    case Evaluate => s.phase == Ready
  }

  function Next(s: State, a: Action): State {
    match a
    case Notify => s.(pending := true)
    case Reject(gap) => s.(phase := if gap then RejectedWithGap else Idle)
    case Accept(gap) => s.(phase := if gap then AcceptedWithGap else Accepted)
    case NoteOwn => State(if s.phase == RejectedWithGap then Idle else Accepted, true)
    case ReadFlag => s.(phase := if s.pending then Seen else Ready)
    case Clear => State(Cleared, false)
    case ForceFlat => s.(phase := Flattened)
    case ResetEstimators => s.(phase := Ready)
    case Evaluate => s.(phase := Idle)
  }

  function StateAt(actions: seq<Action>, k: nat): State
    requires k <= |actions|
  {
    if k == 0 then INITIAL else Next(StateAt(actions, k - 1), actions[k - 1])
  }

  /** A possible interleaving of the two threads. */
  predicate Run(actions: seq<Action>) {
    forall k :: 0 <= k < |actions| ==> Enabled(StateAt(actions, k), actions[k])
  }

  predicate Announces(a: Action) {
    a in {Notify, NoteOwn}
  }

  /** After step n and before step k the position was closed and, later, the
      estimators were reset. */
  ghost predicate Served(actions: seq<Action>, n: nat, k: nat)
    requires k <= |actions|
  {
    exists f, r :: n < f < r < k && actions[f] == ForceFlat && actions[r] == ResetEstimators
  }

  ghost predicate ClosedSince(actions: seq<Action>, n: nat, k: nat)
    requires k <= |actions|
  {
    exists f :: n < f < k && actions[f] == ForceFlat
  }

  /** The recovery that serves step n is under way. */
  ghost predicate Underway(actions: seq<Action>, n: nat, k: nat)
    requires k <= |actions|
  {
    var phase := StateAt(actions, k).phase;
    phase == Seen || phase == Cleared || (phase == Flattened && ClosedSince(actions, n, k))
  }

  lemma {:induction false} UnderwayStep(actions: seq<Action>, n: nat, k: nat)
    requires Run(actions) && n < k < |actions| && Underway(actions, n, k)
    ensures Underway(actions, n, k + 1) || Served(actions, n, k + 1)
  {
    assert Enabled(StateAt(actions, k), actions[k]);
    if actions[k] == ForceFlat {
      assert ClosedSince(actions, n, k + 1);
    } else if StateAt(actions, k).phase == Flattened {
      var f :| n < f < k && actions[f] == ForceFlat;
      assert ClosedSince(actions, n, k + 1);
      if actions[k] == ResetEstimators {
        assert Served(actions, n, k + 1);
      }
    }
  }

  lemma {:induction false} ServedStays(actions: seq<Action>, n: nat, k: nat, l: nat)
    requires k <= l <= |actions| && Served(actions, n, k)
    ensures Served(actions, n, l)
  {
    var f, r :| n < f < r < k && actions[f] == ForceFlat && actions[r] == ResetEstimators;
  }

  /** An announced gap is never forgotten: until it is served the flag is up or
      its recovery is under way, even if the flag was overwritten or cleared in
      between. */
  lemma {:induction false} NeverForgotten(actions: seq<Action>, n: nat, k: nat)
    requires Run(actions) && n < k <= |actions| && Announces(actions[n])
    ensures Served(actions, n, k) || StateAt(actions, k).pending || Underway(actions, n, k)
  {
    hide Served, Underway, Next, Announces;
    FlagKept(StateAt(actions, k - 1), actions[k - 1]);
    if n + 1 < k {
      NeverForgotten(actions, n, k - 1);
      if Served(actions, n, k - 1) {
        ServedStays(actions, n, k - 1, k);
      } else if Underway(actions, n, k - 1) {
        UnderwayStep(actions, n, k - 1);
      } else if !StateAt(actions, k).pending {
        PhaseUnderway(actions, n, k);
      }
    }
  }

  /** An announcement raises the flag, and only clearing it for a recovery takes it down. */
  lemma FlagKept(s: State, a: Action)
    ensures Announces(a) ==> Next(s, a).pending
    ensures s.pending ==> Next(s, a).pending || (a == Clear && Next(s, a).phase == Cleared)
  {
  }

  lemma PhaseUnderway(actions: seq<Action>, n: nat, k: nat)
    requires k <= |actions| && StateAt(actions, k).phase in {Seen, Cleared}
    ensures Underway(actions, n, k)
  {
  }

  lemma ReadStartsRecovery(actions: seq<Action>, n: nat, r: nat)
    requires Run(actions) && n < r < |actions| && Announces(actions[n]) && actions[r] == ReadFlag
    ensures Served(actions, n, r + 1) || Underway(actions, n, r + 1)
  {
    hide Served, Underway, Next, Announces;
    assert Enabled(StateAt(actions, r), actions[r]);
    NeverForgotten(actions, n, r);
    if Served(actions, n, r) {
      ServedStays(actions, n, r, r + 1);
    } else if Underway(actions, n, r) {
      UnderwayStep(actions, n, r);
    } else {
      ReadStep(StateAt(actions, r));
      PhaseUnderway(actions, n, r + 1);
    }
  }

  lemma ReadStep(s: State)
    requires s.pending
    ensures Next(s, ReadFlag).phase == Seen
  {
  }

  /** Once the flag has been read after the announcement, its recovery is done or
      under way. */
  lemma {:induction false} ReadMeansRecovery(actions: seq<Action>, n: nat, r: nat, k: nat)
    requires Run(actions) && n < r < k <= |actions| && Announces(actions[n]) && actions[r] == ReadFlag
    ensures Served(actions, n, k) || Underway(actions, n, k)
  {
    hide Served, Underway, StateAt, Run, Announces;
    if k == r + 1 {
      ReadStartsRecovery(actions, n, r);
    } else {
      ReadMeansRecovery(actions, n, r, k - 1);
      if Served(actions, n, k - 1) {
        ServedStays(actions, n, k - 1, k);
      } else {
        UnderwayStep(actions, n, k - 1);
      }
    }
  }

  /** Wherever a gap is announced, before the next accepted snapshot that still
      has its flag to read is evaluated, the position has been closed and the
      estimators reset, in that order. */
  lemma {:induction false} EveryGapIsServed(actions: seq<Action>, n: nat, r: nat, v: nat)
    requires Run(actions) && n < r < v < |actions|
    requires Announces(actions[n]) && actions[r] == ReadFlag && actions[v] == Evaluate
    ensures Served(actions, n, v)
  {
    hide Served;
    ReadMeansRecovery(actions, n, r, v);
    assert Enabled(StateAt(actions, v), actions[v]);
  }

  predicate Unread(s: State) {
    s.phase in {AcceptedWithGap, Accepted}
  }

  lemma StillUnread(s: State, a: Action)
    requires Enabled(s, a) && (a.Accept? || (Unread(s) && a != ReadFlag))
    ensures Unread(Next(s, a))
  {
  }

  /** An accepted snapshot is not evaluated without reading the flag. */
  lemma {:induction false} FlagIsRead(actions: seq<Action>, a: nat, k: nat)
    requires Run(actions) && a < k <= |actions| && actions[a].Accept?
    requires forall j :: a < j < k ==> actions[j] != ReadFlag
    ensures Unread(StateAt(actions, k))
  {
    hide Enabled, Next, Unread;
    if a + 1 < k {
      FlagIsRead(actions, a, k - 1);
    }
    StillUnread(StateAt(actions, k - 1), actions[k - 1]);
  }

  /** The next accepted snapshot after an announcement is evaluated on a closed
      position and reset estimators. */
  lemma {:induction false} NextAcceptedSnapshotServes(actions: seq<Action>, n: nat, a: nat, v: nat)
    requires Run(actions) && n < a < v < |actions|
    requires Announces(actions[n]) && actions[a].Accept? && actions[v] == Evaluate
    ensures Served(actions, n, v)
  {
    hide Served, Next;
    assert Enabled(StateAt(actions, v), actions[v]);
    if forall j :: a < j < v ==> actions[j] != ReadFlag {
      FlagIsRead(actions, a, v);
    } else {
      var r :| a < r < v && actions[r] == ReadFlag;
      EveryGapIsServed(actions, n, r, v);
    }
  }

  /** Some gap was announced before step k and not cleared since. */
  ghost predicate Due(actions: seq<Action>, k: nat)
    requires k <= |actions|
  {
    exists n :: 0 <= n < k && Announces(actions[n]) && forall j :: n < j < k ==> actions[j] != Clear
  }

  lemma DueStays(actions: seq<Action>, k: nat)
    requires k < |actions| && actions[k] != Clear && Due(actions, k)
    ensures Due(actions, k + 1)
  {
    var n :| 0 <= n < k && Announces(actions[n]) && forall j :: n < j < k ==> actions[j] != Clear;
  }

  /** What the flag, or its having been seen, goes back to. */
  lemma FlagStep(s: State, a: Action)
    requires Enabled(s, a) && (Next(s, a).pending || Next(s, a).phase == Seen)
    ensures Announces(a) || ((s.pending || s.phase == Seen) && a != Clear)
  {
  }

  lemma {:induction false} FlagMeansDue(actions: seq<Action>, k: nat)
    requires Run(actions) && k <= |actions|
    requires StateAt(actions, k).pending || StateAt(actions, k).phase == Seen
    ensures Due(actions, k)
  {
    hide Due, Enabled, Next, Announces;
    FlagStep(StateAt(actions, k - 1), actions[k - 1]);
    if !Announces(actions[k - 1]) {
      FlagMeansDue(actions, k - 1);
    }
    if Announces(actions[k - 1]) {
      AnnouncedIsDue(actions, k - 1);
    } else {
      DueStays(actions, k - 1);
    }
  }

  lemma AnnouncedIsDue(actions: seq<Action>, k: nat)
    requires k < |actions| && Announces(actions[k])
    ensures Due(actions, k + 1)
  {
  }

  /** Nothing is closed or reset without cause: between two recoveries there is
      an announcement. */
  lemma {:induction false} EveryRecoveryHasACause(actions: seq<Action>, c: nat)
    requires Run(actions) && c < |actions| && actions[c] == Clear
    ensures Due(actions, c)
  {
    assert Enabled(StateAt(actions, c), actions[c]);
    FlagMeansDue(actions, c);
  }
}
