/** The mid-price part of the shared statistics and Kaufman's efficiency ratio
    (snapshot_quant_v4/engine/stats.py). Two rings fill at different times: every
    snapshot pushes a mid, only a snapshot that is not the first of a sequence
    pushes a step length. */
module SharedStatisticsModel {
  import opened Prelude
  import opened RingBuffers
  import opened RollingMeans

  /** A mid in ticks, and whether its snapshot opened a new sequence. */
  datatype MidPoint = MidPoint(mid: real, isFirst: bool)

  /** Step lengths recorded over a run since the last reset. */
  function Steps(run: seq<MidPoint>): seq<real>
  {
    if |run| <= 1 then []
    else
      var last := |run| - 1;
      Steps(run[..last]) + if run[last].isFirst then [] else [Abs(run[last].mid - run[last - 1].mid)]
  }

  lemma {:induction false} StepsNonNegative(run: seq<MidPoint>)
    ensures forall i :: 0 <= i < |Steps(run)| ==> Steps(run)[i] >= 0.0
  {
    if |run| > 1 {
      StepsNonNegative(run[..|run| - 1]);
    }
  }

  function Mids(run: seq<MidPoint>): (mids: seq<real>)
    ensures |mids| == |run|
  {
    if run == [] then [] else Mids(run[..|run| - 1]) + [run[|run| - 1].mid]
  }

  lemma {:induction false} MidsAt(run: seq<MidPoint>, i: nat)
    requires i < |run|
    ensures Mids(run)[i] == run[i].mid
  {
    if i < |run| - 1 {
      MidsAt(run[..|run| - 1], i);
    }
  }

  /** What the mid ring holds at a given age. */
  lemma {:induction false} MidAtAge(run: seq<MidPoint>, window: nat, age: nat)
    requires age < MinInt(|run|, window)
    ensures LastN(Mids(run), window)[MinInt(|run|, window) - 1 - age] == run[|run| - 1 - age].mid
  {
    MidsAt(run, |run| - 1 - age);
  }

  lemma {:induction false} RunGrows(run: seq<MidPoint>, p: MidPoint, window: nat)
    requires 0 < window
    ensures LastN(Mids(run + [p]), window) == LastN(LastN(Mids(run), window) + [p.mid], window)
    ensures Steps(run + [p]) == Steps(run) + if run == [] || p.isFirst then [] else [Abs(p.mid - run[|run| - 1].mid)]
  {
    assert (run + [p])[..|run|] == run;
    LastNAppend(Mids(run), p.mid, window);
  }

  function Age(run: seq<MidPoint>, window: nat, lookback: nat): nat
    requires run != [] && 0 < window
  {
    MinInt(lookback, MinInt(|run|, window) - 1)
  }

  /** Net displacement over the lookback, and the path length it is divided by. */
  function Net(run: seq<MidPoint>, window: nat, lookback: nat): real
    requires run != [] && 0 < window
  {
    Abs(run[|run| - 1].mid - run[|run| - 1 - Age(run, window, lookback)].mid)
  }

  function Path(run: seq<MidPoint>, window: nat): real {
    Sum(LastN(Steps(run), window))
  }

  /** The quotient, clamped to one. */
  function Capped(net: real, path: real): (ratio: real)
    requires 0.0 <= net && 0.0 < path
    ensures 0.0 <= ratio <= 1.0
  {
    QuotientNonNegative(net, path);
    var quotient := net / path;
    if quotient < 1.0 then quotient else 1.0
  }

  lemma QuotientNonNegative(net: real, path: real)
    requires 0.0 <= net && 0.0 < path
    ensures 0.0 <= net / path
    ensures net / path <= 1.0 <==> net <= path
  {
    assert net / path * path == net;
  }

  /** Both rings hold enough for a ratio to be reported. */
  predicate Measurable(run: seq<MidPoint>, window: nat) {
    MinInt(|run|, window) >= 3 && |Steps(run)| >= 2
  }

  /** Kaufman's ratio over a run since the last reset. */
  function Efficiency(run: seq<MidPoint>, window: nat, lookback: nat): (ratio: real)
    requires 0 < window
    ensures 0.0 <= ratio <= 1.0
  {
    if Measurable(run, window) && Path(run, window) > 0.0 then
      Capped(Net(run, window, lookback), Path(run, window))
    else 0.0
  }

  /** Displacement over path length, or one where that is less. */
  ghost predicate IsRatio(ratio: real, net: real, path: real) {
    (net <= path ==> Product(ratio, path) == net) && (path < net ==> ratio == 1.0)
  }

  /** The positions, in order, of the snapshots that continue a sequence. */
  ghost predicate AreContinuations(run: seq<MidPoint>, at: seq<nat>) {
    && (forall j :: 0 <= j < |at| ==> 0 < at[j] < |run| && !run[at[j]].isFirst)
    && (forall i, j :: 0 <= i < j < |at| ==> at[i] < at[j])
    && (forall i :: 0 < i < |run| && !run[i].isFirst ==> i in at)
  }

  ghost predicate AreDistances(run: seq<MidPoint>, at: seq<nat>, steps: seq<real>) {
    && |at| == |steps|
    && forall j :: 0 <= j < |at| ==> 0 < at[j] < |run| && steps[j] == Abs(run[at[j]].mid - run[at[j] - 1].mid)
  }

  /** The steps recorded over a run are, in order, the distances of its mids from
      the ones before, where a snapshot continues a sequence. */
  lemma {:induction false} StepsAreDistances(run: seq<MidPoint>) returns (at: seq<nat>)
    ensures AreContinuations(run, at) && AreDistances(run, at, Steps(run))
  {
    hide Steps, AreContinuations, AreDistances;
    at := [];
    LastStep(run);
    if |run| <= 1 {
      NoneContinues(run);
    } else {
      var last := |run| - 1;
      var before := StepsAreDistances(run[..last]);
      at := if run[last].isFirst then before else before + [last];
      ContinuationsGrow(run, before);
      DistancesGrow(run, before, Steps(run[..last]));
    }
  }

  lemma NoneContinues(run: seq<MidPoint>)
    requires |run| <= 1
    ensures AreContinuations(run, []) && AreDistances(run, [], [])
  {
  }

  lemma LastStep(run: seq<MidPoint>)
    ensures |run| <= 1 ==> Steps(run) == []
    ensures |run| > 1 ==>
      var last := |run| - 1;
      Steps(run) == if run[last].isFirst then Steps(run[..last])
                    else Steps(run[..last]) + [Abs(run[last].mid - run[last - 1].mid)]
  {
  }

  lemma DistancesGrow(run: seq<MidPoint>, at: seq<nat>, steps: seq<real>)
    requires |run| > 1 && AreDistances(run[..|run| - 1], at, steps)
    ensures var last := |run| - 1;
      AreDistances(run, at, steps) && AreDistances(run, at + [last], steps + [Abs(run[last].mid - run[last - 1].mid)])
  {
  }

  lemma ContinuationsGrow(run: seq<MidPoint>, at: seq<nat>)
    requires |run| > 1 && AreContinuations(run[..|run| - 1], at)
    ensures AreContinuations(run, if run[|run| - 1].isFirst then at else at + [|run| - 1])
  {
    var last := |run| - 1;
    var before := run[..last];
    var more := if run[last].isFirst then at else at + [last];
    forall j | 0 <= j < |more|
      ensures 0 < more[j] < |run| && !run[more[j]].isFirst
    {
      assert j < |at| ==> before[at[j]] == run[at[j]];
    }
    forall i, j | 0 <= i < j < |more|
      ensures more[i] < more[j]
    {
      assert j == |at| ==> at[i] < last;
    }
    forall i | 0 < i < |run| && !run[i].isFirst
      ensures i in more
    {
      assert i < last ==> before[i] == run[i] && i in at;
    }
  }

  /** Kaufman's ratio, from the run alone: the distance of the newest mid from the
      one lookback back, as far as the ring reaches, over the length of the last
      recorded steps. Too few of either, or no movement, give zero. */
  ghost predicate IsEfficiency(ratio: real, run: seq<MidPoint>, window: nat, lookback: nat) {
    var count, steps := MinInt(|run|, window), LastN(Steps(run), window);
    if count < 3 || |steps| < 2 || Sum(steps) <= 0.0 then ratio == 0.0
    else IsRatio(ratio, Abs(run[|run| - 1].mid - run[|run| - 1 - MinInt(lookback, count - 1)].mid), Sum(steps))
  }

  lemma EfficiencyIsNetOverPath(run: seq<MidPoint>, window: nat, lookback: nat)
    requires 4 <= window
    ensures IsEfficiency(Efficiency(run, window, lookback), run, window, lookback)
  {
    hide Sum, Steps, Product;
    if Measurable(run, window) && Path(run, window) > 0.0 {
      CappedIsRatio(Net(run, window, lookback), Path(run, window));
    }
  }

  lemma CappedIsRatio(net: real, path: real)
    requires 0.0 <= net && 0.0 < path
    ensures IsRatio(Capped(net, path), net, path)
  {
    QuotientNonNegative(net, path);
    assert net / path * path == net;
  }

  class SharedStatistics {
    const midTicks: RingBuffer
    const midDeltaAbs: RollingMean
    const warmupSnapshots: nat
    var previousMidTicks: Option<real>
    var snapshots: nat
    ghost const window: nat
    /** Snapshots since the last reset. */
    ghost var run: seq<MidPoint>

    ghost predicate Valid()
      reads this, midTicks, midTicks.data, midDeltaAbs, midDeltaAbs.buffer, midDeltaAbs.buffer.data
    {
      && RingsValid()
      && midTicks.Contents() == LastN(Mids(run), window)
      && midDeltaAbs.history == Steps(run)
      && snapshots == |run|
      && previousMidTicks == (if run == [] then None else Some(run[|run| - 1].mid))
    }

    constructor (window: nat, warmupSnapshots: nat)
      requires 4 <= window && 1 <= warmupSnapshots
      ensures Valid() && run == [] && this.window == window && this.warmupSnapshots == warmupSnapshots
      ensures fresh(midTicks) && fresh(midTicks.data)
      ensures fresh(midDeltaAbs) && fresh(midDeltaAbs.buffer) && fresh(midDeltaAbs.buffer.data)
    {
      midTicks := new RingBuffer(window);
      midDeltaAbs := new RollingMean(window, 8192, 2, 0.0);
      this.window, this.warmupSnapshots := window, warmupSnapshots;
      previousMidTicks, snapshots, run := None, 0, [];
    }

    method UpdatePre(mid: real, isFirst: bool)
      requires Valid()
      modifies this, midTicks, midTicks.data, midDeltaAbs, midDeltaAbs.buffer, midDeltaAbs.buffer.data
      ensures Valid() && run == old(run) + [MidPoint(mid, isFirst)]
    {
      hide Times, DriftBound, Steps, Mids, Sum, LastN;
      RunGrows(run, MidPoint(mid, isFirst), window);
      if previousMidTicks.Some? && !isFirst {
        RecordStep(Abs(mid - previousMidTicks.value));
      }
      PushMid(mid);
      snapshots := snapshots + 1;
      previousMidTicks := Some(mid);
      run := run + [MidPoint(mid, isFirst)];
      assert run[|run| - 1].mid == mid;
    }

    ghost predicate RingsValid()
      reads this, midTicks, midTicks.data, midDeltaAbs, midDeltaAbs.buffer, midDeltaAbs.buffer.data
    {
      && midDeltaAbs.buffer != midTicks && midDeltaAbs.buffer.data != midTicks.data
      && midTicks.Valid() && midDeltaAbs.Valid()
      && midTicks.capacity == midDeltaAbs.buffer.capacity == window && 4 <= window
      && midDeltaAbs.unit == 0.0 && midDeltaAbs.minSamples == 2
    }

    method RecordStep(length: real)
      requires RingsValid()
      modifies midDeltaAbs, midDeltaAbs.buffer, midDeltaAbs.buffer.data
      ensures RingsValid()
      ensures midDeltaAbs.history == old(midDeltaAbs.history) + [length]
      ensures midTicks.Contents() == old(midTicks.Contents())
    {
      var exact := seq(midDeltaAbs.buffer.capacity + 2, _ => 0.0);
      var _ := midDeltaAbs.Update(length, exact);
    }

    method PushMid(mid: real)
      requires RingsValid()
      modifies midTicks, midTicks.data
      ensures RingsValid()
      ensures midTicks.Contents() == LastN(old(midTicks.Contents()) + [mid], window)
    {
      var _ := midTicks.Push(mid);
    }

    /** |net displacement| / path length, clamped; always in [0, 1]. */
    method EfficiencyRatio(lookback: nat) returns (ratio: real)
      requires Valid()
      ensures ratio == Efficiency(run, window, lookback)
      ensures IsEfficiency(ratio, run, window, lookback)
    {
      hide Capped, Times, DriftBound, Mean, Steps, Mids, Sum, IsEfficiency;
      EfficiencyIsNetOverPath(run, window, lookback);
      var count := midTicks.count;
      if count < 3 || !midDeltaAbs.Ready() {
        return 0.0;
      }
      var age := MinInt(lookback, count - 1);
      var net := NetDisplacement(age);
      var path := midDeltaAbs.Total();
      if path <= 0.0 {
        return 0.0;
      }
      ratio := Capped(net, path);
    }

    method NetDisplacement(age: nat) returns (net: real)
      requires Valid() && age < midTicks.count
      ensures net == Abs(run[|run| - 1].mid - run[|run| - 1 - age].mid)
    {
      hide RollingMean.Valid, Steps, Mids, Sum, LastN, Times;
      MidAtAge(run, window, 0);
      MidAtAge(run, window, age);
      net := Abs(midTicks.At(0).value - midTicks.At(age).value);
    }

    method Reset()
      requires Valid()
      modifies this, midTicks, midDeltaAbs, midDeltaAbs.buffer
      ensures Valid() && run == []
    {
      snapshots := 0;
      midTicks.Clear();
      midDeltaAbs.Reset();
      previousMidTicks := None;
      run := [];
    }
  }

  // -- when the clamp to one matters ------------------------------------------

  lemma {:induction false} SumNonNegative(s: seq<real>)
    requires forall i :: 0 <= i < |s| ==> s[i] >= 0.0
    ensures Sum(s) >= 0.0
  {
    if s != [] {
      SumNonNegative(s[..|s| - 1]);
    }
  }

  /** Longer windows of non-negative steps cover longer paths. */
  lemma {:induction false} PathGrows(steps: seq<real>, a: nat, b: nat)
    requires a <= b && forall i :: 0 <= i < |steps| ==> steps[i] >= 0.0
    ensures Sum(LastN(steps, a)) <= Sum(LastN(steps, b))
  {
    var longer := LastN(steps, b);
    var k := |longer| - |LastN(steps, a)|;
    assert longer[..k] + LastN(steps, a) == longer;
    SumConcat(longer[..k], LastN(steps, a));
    SumNonNegative(longer[..k]);
  }

  /** No snapshot of the last age steps opened a new sequence. */
  predicate Unbroken(run: seq<MidPoint>, age: nat)
    requires age < |run|
  {
    forall i :: |run| - age <= i < |run| ==> !run[i].isFirst
  }

  lemma Triangle(a: real, b: real, c: real)
    ensures Abs(c - a) <= Abs(b - a) + Abs(c - b)
  {
  }

  lemma {:induction false} LastStepCounts(steps: seq<real>, age: nat, d: real)
    requires 0 < age <= |steps| + 1
    ensures Sum(LastN(steps + [d], age)) == Sum(LastN(steps, age - 1)) + d
  {
    assert LastN(steps + [d], age) == LastN(steps, age - 1) + [d];
    SumAppend(LastN(steps, age - 1), d);
  }

  /** Triangle inequality over the recorded steps. */
  lemma {:induction false} NetAtMostSteps(run: seq<MidPoint>, age: nat)
    requires age < |run| && Unbroken(run, age)
    ensures |Steps(run)| >= age
    ensures Abs(run[|run| - 1].mid - run[|run| - 1 - age].mid) <= Sum(LastN(Steps(run), age))
  {
    if age > 0 {
      var last := |run| - 1;
      var before, d := run[..last], Abs(run[last].mid - run[last - 1].mid);
      NetAtMostSteps(before, age - 1);
      assert Steps(run) == Steps(before) + [d];
      LastStepCounts(Steps(before), age, d);
      Triangle(run[last - age].mid, run[last - 1].mid, run[last].mid);
    }
  }

  /** Over an uninterrupted lookback displacement never exceeds path length, so
      the clamp to one is inert. */
  lemma {:induction false} NetAtMostPath(run: seq<MidPoint>, window: nat, lookback: nat)
    requires run != [] && 0 < window
    requires Unbroken(run, Age(run, window, lookback))
    ensures Net(run, window, lookback) <= Path(run, window)
  {
    hide Sum, Steps, LastN;
    var age := Age(run, window, lookback);
    NetAtMostSteps(run, age);
    StepsNonNegative(run);
    PathGrows(Steps(run), age, window);
  }

  /** A run after a gap: the reset also clears the validator, so the second
      snapshot opens a sequence again and its step is never recorded. */
  predicate AfterGap(run: seq<MidPoint>) {
    forall i :: 1 <= i < |run| ==> (run[i].isFirst <==> i == 1)
  }

  /** From a mid of `base` ticks: a jump whose step goes unrecorded, a move of one
      tick, then rest. */
  function Jump(base: real, n: nat): (run: seq<MidPoint>)
    ensures |run| == n && AfterGap(run)
  {
    seq(n, i => MidPoint(if i == 0 then base else if i == 1 then base + 10.0 else base + 11.0, i < 2))
  }

  lemma {:induction false} JumpPath(base: real, n: nat)
    requires n >= 3
    ensures Sum(Steps(Jump(base, n))) == 1.0 && |Steps(Jump(base, n))| == n - 2
  {
    var run := Jump(base, n);
    assert run[..n - 1] == Jump(base, n - 1);
    if n == 3 {
      assert Steps(run[..1]) == [];
      assert Steps(run[..2]) == Steps(run[..2][..1]) + [] == [];
      assert Steps(run) == [] + [1.0];
      SumAppend([], 1.0);
    } else {
      JumpPath(base, n - 1);
      assert Steps(run) == Steps(Jump(base, n - 1)) + [0.0];
      SumAppend(Steps(Jump(base, n - 1)), 0.0);
    }
  }

  /** Displacement ahead of path length, as far as the lookback reaches the jump. */
  lemma {:induction false} JumpOvertakes(base: real, n: nat, window: nat, lookback: nat)
    requires 4 <= n <= window && n - 2 < lookback
    ensures Path(Jump(base, n), window) == 1.0 && Net(Jump(base, n), window, lookback) == 11.0
  {
    JumpPath(base, n);
    hide Sum, Steps;
    assert LastN(Steps(Jump(base, n)), window) == Steps(Jump(base, n));
  }

  /** Prices are positive, and so are mids. */
  predicate Priced(run: seq<MidPoint>) {
    forall i :: 0 <= i < |run| ==> 0.0 < run[i].mid
  }

  /** Where a ratio is reported, it is not cut. */
  predicate ClampInert(run: seq<MidPoint>, window: nat, lookback: nat)
    requires run != [] && 0 < window
  {
    Path(run, window) > 0.0 ==> Net(run, window, lookback) <= Path(run, window)
  }

  /** After a gap the clamp is inert for every price path exactly when the
      unrecorded step is out of reach: the mid ring has wrapped, or the lookback
      stops short of the first snapshot. */
  lemma {:induction false} ClampInertAfterGap(n: nat, window: nat, lookback: nat)
    requires 4 <= window && 4 <= n
    ensures (forall run :: |run| == n && AfterGap(run) && Priced(run) ==> ClampInert(run, window, lookback))
       <==> (n > window || lookback <= n - 2)
  {
    if n > window || lookback <= n - 2 {
      forall run | |run| == n && AfterGap(run) && Priced(run)
        ensures ClampInert(run, window, lookback)
      {
        NetAtMostPath(run, window, lookback);
      }
    } else {
      JumpOvertakes(1.0, n, window, lookback);
      var run := Jump(1.0, n);
      hide Net, Path;
      assert Priced(run) && AfterGap(run) && |run| == n;
      assert !ClampInert(run, window, lookback);
    }
  }
}
