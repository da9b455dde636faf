/** Sliding-window extrema by monotonic deques
    (snapshot_quant_v4/buffers/monotonic_queue.py), proved against the naive
    rescan of the window. */
module MonotonicWindows {
  import opened Prelude

  datatype Entry = Entry(at: nat, sample: real)

  /** Which extremum a deque tracks. */
  datatype Order = Largest | Smallest

  /** a is no better a candidate than b. */
  predicate Dominated(order: Order, a: real, b: real) {
    match order
    case Largest => a <= b
    case Smallest => a >= b
  }

  /** The naive answer: m occurs in the window and nothing in it is more extreme. */
  ghost predicate IsExtremum(order: Order, m: real, window: seq<real>) {
    && m in window
    && forall x :: x in window ==> Dominated(order, x, m)
  }

  lemma ExtremumUnique(order: Order, a: real, b: real, window: seq<real>)
    requires IsExtremum(order, a, window) && IsExtremum(order, b, window)
    ensures a == b
  {
    assert Dominated(order, a, b) && Dominated(order, b, a);
  }

  /** Some candidate at least as recent as sample j is at least as extreme. */
  ghost predicate Covered(order: Order, deque: seq<Entry>, history: seq<real>, j: nat)
    requires j < |history|
  {
    exists e :: e in deque && j <= e.at && Dominated(order, history[j], e.sample)
  }

  /** Oldest first, and each candidate strictly more extreme than those after it. */
  ghost predicate Staircase(order: Order, deque: seq<Entry>) {
    forall k, l :: 0 <= k < l < |deque| ==>
      deque[k].at < deque[l].at && !Dominated(order, deque[k].sample, deque[l].sample)
  }

  /** The deque is a staircase of samples of history[from..] covering them all. */
  ghost predicate Candidates(order: Order, deque: seq<Entry>, history: seq<real>, from: nat) {
    && Staircase(order, deque)
    && (forall e :: e in deque ==> from <= e.at < |history| && e.sample == history[e.at])
    && (forall j: nat :: from <= j < |history| ==> Covered(order, deque, history, j))
  }

  /** The head of the deque is what a rescan of the window would find. */
  lemma HeadIsExtremum(order: Order, deque: seq<Entry>, history: seq<real>, from: nat)
    requires Candidates(order, deque, history, from)
    requires from < |history|
    ensures deque != [] && IsExtremum(order, deque[0].sample, history[from..])
  {
    assert Covered(order, deque, history, |history| - 1);
    assert history[from..][deque[0].at - from] == deque[0].sample;
    forall x | x in history[from..]
      ensures Dominated(order, x, deque[0].sample)
    {
      var i :| 0 <= i < |history| - from && history[from..][i] == x;
      assert Covered(order, deque, history, from + i);
    }
  }

  lemma NonEmpty(order: Order, deque: seq<Entry>, history: seq<real>, from: nat)
    requires Candidates(order, deque, history, from)
    ensures from < |history| ==> deque != []
  {
    if from < |history| {
      HeadIsExtremum(order, deque, history, from);
    }
  }

  /** Only the head can be one step out of date, so one pop expires it. */
  lemma OnePopExpires(order: Order, deque: seq<Entry>, history: seq<real>, from: nat)
    requires Candidates(order, deque, history, from)
    requires from + 1 < |history|
    ensures deque != []
    ensures Candidates(order, if deque[0].at <= from then deque[1..] else deque, history, from + 1)
  {
    NonEmpty(order, deque, history, from);
    if deque[0].at <= from {
      TailIsStaircase(order, deque);
      var rest := deque[1..];
      forall e | e in rest
        ensures from + 1 <= e.at < |history| && e.sample == history[e.at]
      {
        var k :| 0 <= k < |rest| && rest[k] == e;
        assert deque[k + 1] in deque && deque[0] in deque;
      }
      forall j: nat | from + 1 <= j < |history|
        ensures Covered(order, rest, history, j)
      {
        assert Covered(order, deque, history, j);
        var e :| e in deque && j <= e.at && Dominated(order, history[j], e.sample);
        assert e in rest;
      }
    } else {
      forall e | e in deque
        ensures from + 1 <= e.at
      {
        var k :| 0 <= k < |deque| && deque[k] == e;
        assert deque[0].at <= deque[k].at;
      }
    }
  }

  lemma TailIsStaircase(order: Order, deque: seq<Entry>)
    requires Staircase(order, deque) && deque != []
    ensures Staircase(order, deque[1..])
  {
    forall k, l | 0 <= k < l < |deque[1..]|
      ensures deque[1..][k].at < deque[1..][l].at && !Dominated(order, deque[1..][k].sample, deque[1..][l].sample)
    {
      assert deque[k + 1].at < deque[l + 1].at;
    }
  }

  /** The tail loop of update followed by the append. */
  method Admit(order: Order, deque: seq<Entry>, index: nat, sample: real, ghost history: seq<real>, ghost from: nat)
    returns (admitted: seq<Entry>, ghost pops: nat)
    requires Candidates(order, deque, history, from)
    requires index == |history| && from <= index
    ensures Candidates(order, admitted, history + [sample], from)
    ensures |admitted| == |deque| - pops + 1
  {
    var kept := deque;
    pops := 0;
    while kept != [] && Dominated(order, kept[|kept| - 1].sample, sample)
      invariant |kept| == |deque| - pops && kept == deque[..|kept|]
      invariant forall e :: e in deque && e !in kept ==> Dominated(order, e.sample, sample)
    {
      assert kept == kept[..|kept| - 1] + [kept[|kept| - 1]];
      kept := kept[..|kept| - 1];
      pops := pops + 1;
    }
    admitted := kept + [Entry(index, sample)];
    AdmitKeepsCandidates(order, deque, kept, sample, history, from);
  }

  /** The single head pop at the end of update. */
  method Expire(order: Order, deque: seq<Entry>, expiry: int, ghost history: seq<real>, ghost from: nat)
    returns (kept: seq<Entry>)
    requires Candidates(order, deque, history, from)
    requires from < |history|
    requires expiry < from || (expiry == from && from + 1 < |history|)
    ensures Candidates(order, kept, history, if expiry < from then from else from + 1)
    ensures |deque| - 1 <= |kept| <= |deque|
  {
    NonEmpty(order, deque, history, from);
    if expiry == from {
      OnePopExpires(order, deque, history, from);
    }
    assert deque[0] in deque;
    kept := deque;
    if deque[0].at <= expiry {
      kept := deque[1..];
    }
  }

  lemma AdmitKeepsCandidates(order: Order, deque: seq<Entry>, kept: seq<Entry>, sample: real, history: seq<real>,
                             from: nat)
    requires Candidates(order, deque, history, from) && from <= |history|
    requires |kept| <= |deque| && kept == deque[..|kept|]
    requires forall e :: e in deque && e !in kept ==> Dominated(order, e.sample, sample)
    requires kept != [] ==> !Dominated(order, kept[|kept| - 1].sample, sample)
    ensures Candidates(order, kept + [Entry(|history|, sample)], history + [sample], from)
  {
    var last := Entry(|history|, sample);
    var admitted, longer := kept + [last], history + [sample];
    assert last in admitted;
    forall j: nat | from <= j < |longer|
      ensures Covered(order, admitted, longer, j)
    {
      if j < |history| {
        assert Covered(order, deque, history, j);
        var e :| e in deque && j <= e.at && Dominated(order, history[j], e.sample);
        if e in kept {
          assert e in admitted;
        }
      }
    }
    forall k | 0 <= k < |kept|
      ensures admitted[k].at < last.at && !Dominated(order, admitted[k].sample, sample)
    {
      assert deque[k] in deque;
      if k < |kept| - 1 {
        assert !Dominated(order, deque[k].sample, deque[|kept| - 1].sample);
      }
    }
  }

  class MonotonicWindow {
    const window: nat
    var maxDeque: seq<Entry>
    var minDeque: seq<Entry>
    var index: nat
    var count: nat
    /** Samples since the last reset. */
    ghost var history: seq<real>
    /** Updates ever made, and deque pushes and pops they cost. */
    ghost var updates: nat
    ghost var operations: nat

    ghost predicate Valid()
      reads this
    {
      && 0 < window
      && index == |history|
      && count == |LastN(history, window)|
      && Candidates(Largest, maxDeque, history, Oldest())
      && Candidates(Smallest, minDeque, history, Oldest())
      && operations + |maxDeque| + |minDeque| <= 4 * updates
    }

    /** Position in the history of the oldest sample still in the window. */
    ghost function Oldest(): nat
      reads this
    {
      if |history| <= window then 0 else |history| - window
    }

    ghost function Contents(): seq<real>
      reads this
    {
      LastN(history, window)
    }

    constructor (window: nat)
      requires 0 < window
      ensures Valid() && this.window == window
      ensures history == [] && updates == 0 && operations == 0
    {
      this.window := window;
      maxDeque, minDeque, index, count := [], [], 0, 0;
      history, updates, operations := [], 0, 0;
    }

    /** The window maximum; None is the IndexError of an empty window. */
    method Maximum() returns (m: Option<real>)
      requires Valid()
      ensures m.None? <==> history == []
      ensures m.Some? ==> IsExtremum(Largest, m.value, Contents())
    {
      if maxDeque == [] {
        NonEmpty(Largest, maxDeque, history, Oldest());
        m := None;
      } else {
        assert maxDeque[0] in maxDeque;
        HeadIsExtremum(Largest, maxDeque, history, Oldest());
        m := Some(maxDeque[0].sample);
      }
    }

    method Minimum() returns (m: Option<real>)
      requires Valid()
      ensures m.None? <==> history == []
      ensures m.Some? ==> IsExtremum(Smallest, m.value, Contents())
    {
      if minDeque == [] {
        NonEmpty(Smallest, minDeque, history, Oldest());
        m := None;
      } else {
        assert minDeque[0] in minDeque;
        HeadIsExtremum(Smallest, minDeque, history, Oldest());
        m := Some(minDeque[0].sample);
      }
    }

    /** Where a value sits inside the window range: 0 at or below the minimum,
        1 at or above the maximum, linear between, and 1/2 for a flat window. */
    method PositionOf(value: real) returns (p: real)
      requires Valid()
      ensures 0.0 <= p <= 1.0
      ensures history == [] ==> p == 0.5
      ensures forall lo, hi :: IsExtremum(Smallest, lo, Contents()) && IsExtremum(Largest, hi, Contents()) ==>
                (if hi <= lo then p == 0.5
                 else if value <= lo then p == 0.0
                 else if value >= hi then p == 1.0
                 else lo + p * (hi - lo) == value)
    {
      NonEmpty(Largest, maxDeque, history, Oldest());
      if maxDeque == [] {
        return 0.5;
      }
      assert maxDeque[0] in maxDeque;
      HeadIsExtremum(Smallest, minDeque, history, Oldest());
      HeadIsExtremum(Largest, maxDeque, history, Oldest());
      var low, high := minDeque[0].sample, maxDeque[0].sample;
      forall lo, hi | IsExtremum(Smallest, lo, Contents()) && IsExtremum(Largest, hi, Contents())
        ensures lo == low && hi == high
      {
        ExtremumUnique(Smallest, lo, low, Contents());
        ExtremumUnique(Largest, hi, high, Contents());
      }
      var span := high - low;
      if span <= 0.0 {
        return 0.5;
      }
      p := (value - low) / span;
      assert p * span == value - low;
      UnitFraction(value - low, span);
      if p < 0.0 {
        p := 0.0;
      } else if p > 1.0 {
        p := 1.0;
      }
    }

    /** Pushes a sample: the window now is the last samples of the longer
        history, and the work of all updates so far stays linear. */
    method Update(sample: real)
      requires Valid()
      modifies this
      ensures Valid()
      ensures history == old(history) + [sample]
      ensures updates == old(updates) + 1
      ensures operations <= 4 * updates
    {
      hide Candidates, LastN;
      ghost var from, longer := Oldest(), history + [sample];
      var expiry: int := index - window;
      var largest, maxPops := Admit(Largest, maxDeque, index, sample, history, from);
      var smallest, minPops := Admit(Smallest, minDeque, index, sample, history, from);
      ghost var grown := |largest| + |smallest|;
      largest := Expire(Largest, largest, expiry, longer, from);
      smallest := Expire(Smallest, smallest, expiry, longer, from);
      operations := operations + maxPops + minPops + 2 + (grown - |largest| - |smallest|);
      maxDeque, minDeque, history, updates := largest, smallest, longer, updates + 1;
      index := index + 1;
      if count < window {
        count := count + 1;
      }
    }

    method Reset()
      requires Valid()
      modifies this
      ensures Valid()
      ensures history == [] && updates == old(updates)
    {
      maxDeque, minDeque := [], [];
      index, count := 0, 0;
      history := [];
    }
  }

  lemma UnitFraction(x: real, span: real)
    requires span > 0.0
    ensures x / span <= 0.0 <==> x <= 0.0
    ensures x / span >= 1.0 <==> x >= span
  {
    assert x / span * span == x;
  }
}
