/** The two variance estimators (snapshot_quant_v4/buffers/rolling_variance.py),
    both proved against the two-pass definition of the sample variance. */
module RollingVariances {
  import opened Prelude
  import opened RingBuffers
  import opened RollingMeans

  function Square(x: real): (r: real)
    ensures r >= 0.0
  {
    SquareNonNegative(x);
    x * x
  }

  lemma SquareNonNegative(x: real)
    ensures x * x >= 0.0
  {
    if x < 0.0 {
      assert x * x == (-x) * (-x);
    }
  }

  ghost function SumSquares(s: seq<real>): real {
    if s == [] then 0.0 else SumSquares(s[..|s| - 1]) + Square(s[|s| - 1])
  }

  /** Second pass of the textbook computation: squared deviations from m. */
  ghost function Deviations(s: seq<real>, m: real): (d: real)
    ensures d >= 0.0
  {
    if s == [] then 0.0 else Deviations(s[..|s| - 1], m) + Square(s[|s| - 1] - m)
  }

  /** Unbiased sample variance, computed in two passes. */
  ghost function SampleVariance(s: seq<real>): real {
    if |s| < 2 then 0.0 else Deviations(s, Mean(s)) / (|s| - 1) as real
  }

  lemma {:induction false} SumSquaresAppend(s: seq<real>, x: real)
    ensures SumSquares(s + [x]) == SumSquares(s) + Square(x)
  {
    assert (s + [x])[..|s|] == s;
  }

  lemma {:induction false} SumSquaresDropFirst(s: seq<real>)
    requires s != []
    ensures SumSquares(s[1..]) == SumSquares(s) - Square(s[0])
  {
    if |s| > 1 {
      var t := s[..|s| - 1];
      SumSquaresDropFirst(t);
      assert s[1..][..|s| - 2] == t[1..];
    }
  }

  lemma {:induction false} SumSquaresOfWindowMoves(window: seq<real>, sample: real, n: nat)
    requires 0 < n && |window| <= n
    ensures SumSquares(LastN(window + [sample], n))
         == SumSquares(window) + Square(sample) - (if |window| == n then Square(window[0]) else 0.0)
  {
    SumSquaresAppend(window, sample);
    if |window| == n {
      SumSquaresDropFirst(window + [sample]);
      assert LastN(window + [sample], n) == (window + [sample])[1..];
    }
  }

  /** The one-pass form of the squared deviations from m. */
  ghost function Expanded(sumsq: real, sum: real, n: real, m: real): real {
    sumsq - 2.0 * m * sum + n * m * m
  }

  /** Expanding the squares relates the one-pass and the two-pass forms. */
  lemma {:induction false} DeviationsExpand(s: seq<real>, m: real)
    ensures Deviations(s, m) == Expanded(SumSquares(s), Sum(s), |s| as real, m)
  {
    if s != [] {
      var t, x := s[..|s| - 1], s[|s| - 1];
      DeviationsExpand(t, m);
      ExpandOne(SumSquares(t), Sum(t), |t| as real, m, x, SumSquares(s), Sum(s), |s| as real);
    }
  }

  lemma ExpandOne(sumsq: real, sum: real, n: real, m: real, x: real, sumsq': real, sum': real, n': real)
    requires sumsq' == sumsq + Square(x) && sum' == sum + x && n' == n + 1.0
    ensures Expanded(sumsq', sum', n', m) == Expanded(sumsq, sum, n, m) + Square(x - m)
  {
  }

  /** Cauchy-Schwarz for a window: the centred sum of squares is the two-pass
      one, so it is never negative and the floor at zero changes nothing. */
  lemma {:induction false} CentredIsTwoPass(s: seq<real>)
    requires s != []
    ensures Centred(SumSquares(s), Sum(s), |s| as real) == Deviations(s, Mean(s))
    ensures Centred(SumSquares(s), Sum(s), |s| as real) >= 0.0
  {
    DeviationsExpand(s, Mean(s));
    CentredAtMean(SumSquares(s), Sum(s), |s| as real, Mean(s));
  }

  /** The centred sum of squares as the accessor computes it. */
  function Centred(sumsq: real, sum: real, n: real): real
    requires n > 0.0
  {
    sumsq - (sum * sum) / n
  }

  lemma CentredAtMean(sumsq: real, sum: real, n: real, m: real)
    requires n > 0.0 && m == sum / n
    ensures Centred(sumsq, sum, n) == Expanded(sumsq, sum, n, m)
  {
    assert n * m == sum;
    assert n * m * m == sum * m;
    assert sum * m * n == sum * sum;
  }

  class RollingVariance {
    const buffer: RingBuffer
    const recomputeInterval: nat
    const minSamples: nat
    var sum: real
    var sumsq: real
    var sinceRecompute: nat
    ghost var history: seq<real>

    ghost predicate Valid()
      reads this, buffer, buffer.data
    {
      && buffer.Valid()
      && buffer.Contents() == LastN(history, buffer.capacity)
      && sinceRecompute < recomputeInterval
      && sum == Sum(buffer.Contents())
      && sumsq == SumSquares(buffer.Contents())
    }

    ghost function Window(): seq<real>
      reads this
    {
      LastN(history, buffer.capacity)
    }

    constructor (window: nat, recomputeInterval: nat, minSamples: nat)
      requires 2 <= window && 0 < recomputeInterval && 2 <= minSamples <= window
      ensures Valid() && fresh(buffer) && fresh(buffer.data)
      ensures history == [] && buffer.capacity == window
    {
      this.recomputeInterval, this.minSamples := recomputeInterval, minSamples;
      buffer := new RingBuffer(window);
      sum, sumsq, sinceRecompute, history := 0.0, 0.0, 0, [];
    }

    /** The running sums give exactly the two-pass variance of the window. */
    method Variance() returns (variance: real)
      requires Valid()
      ensures variance == SampleVariance(Window())
      ensures variance >= 0.0
    {
      var count := buffer.count;
      if count < 2 {
        return 0.0;
      }
      var centred := Centred(sumsq, sum, count as real);
      CentredIsTwoPass(Window());
      if centred <= 0.0 {
        assert centred == 0.0;
        return 0.0;
      }
      variance := centred / (count - 1) as real;
    }

    method Update(sample: real) returns (variance: real)
      requires Valid()
      modifies this, buffer, buffer.data
      ensures Valid()
      ensures history == old(history) + [sample]
      ensures variance == SampleVariance(LastN(history, buffer.capacity))
    {
      Accumulate(sample);
      if sinceRecompute >= recomputeInterval {
        Recompute();
      }
      variance := Variance();
    }

    method Accumulate(sample: real)
      requires Valid()
      modifies this, buffer, buffer.data
      ensures buffer.Valid()
      ensures history == old(history) + [sample]
      ensures buffer.Contents() == LastN(history, buffer.capacity)
      ensures sinceRecompute == old(sinceRecompute) + 1
      ensures sum == Sum(buffer.Contents()) && sumsq == SumSquares(buffer.Contents())
    {
      hide Sum, SumSquares, Square, LastN;
      ghost var before := buffer.Contents();
      LastNAppend(history, sample, buffer.capacity);
      SumOfWindowMoves(before, sample, buffer.capacity);
      SumSquaresOfWindowMoves(before, sample, buffer.capacity);
      var evicted := buffer.Push(sample);
      history := history + [sample];
      sum := sum + sample;
      sumsq := sumsq + Square(sample);
      if evicted.Some? {
        sum := sum - evicted.value;
        sumsq := sumsq - Square(evicted.value);
      }
      sinceRecompute := sinceRecompute + 1;
    }

    /** Recomputing both accumulators changes neither. */
    method Recompute()
      requires buffer.Valid() && 0 < recomputeInterval
      requires buffer.Contents() == LastN(history, buffer.capacity)
      requires sum == Sum(buffer.Contents()) && sumsq == SumSquares(buffer.Contents())
      modifies this`sum, this`sumsq, this`sinceRecompute
      ensures Valid() && sinceRecompute == 0
      ensures sum == old(sum) && sumsq == old(sumsq)
    {
      var values := buffer.Values();
      var total, totalSq := 0.0, 0.0;
      for k := 0 to |values|
        invariant total == Sum(values[..k]) && totalSq == SumSquares(values[..k])
      {
        assert values[..k + 1] == values[..k] + [values[k]];
        SumAppend(values[..k], values[k]);
        SumSquaresAppend(values[..k], values[k]);
        total := total + values[k];
        totalSq := totalSq + Square(values[k]);
      }
      assert values[..|values|] == values;
      sum, sumsq := total, totalSq;
      sinceRecompute := 0;
    }

    method Reset()
      requires Valid()
      modifies this, buffer
      ensures Valid() && history == []
    {
      buffer.Clear();
      history := [];
      sum, sumsq, sinceRecompute := 0.0, 0.0, 0;
    }
  }

  class WelfordVariance {
    var count: nat
    var mean: real
    var m2: real
    ghost var history: seq<real>

    ghost predicate Valid()
      reads this
    {
      && count == |history|
      && mean == Mean(history)
      && m2 == Deviations(history, mean)
    }

    constructor ()
      ensures Valid() && history == []
    {
      count, mean, m2, history := 0, 0.0, 0.0, [];
    }

    method Variance() returns (variance: real)
      requires Valid()
      ensures variance == SampleVariance(history)
    {
      variance := if count < 2 then 0.0 else m2 / (count - 1) as real;
    }

    method Update(sample: real) returns (variance: real)
      requires Valid()
      modifies this
      ensures Valid() && history == old(history) + [sample]
      ensures variance == SampleVariance(history)
    {
      hide Deviations, Mean;
      WelfordStep(history, sample);
      ghost var n, m := count as real, mean;
      count := count + 1;
      var delta := sample - mean;
      mean := mean + delta / count as real;
      assert mean == NextMean(n, m, sample);
      m2 := m2 + delta * (sample - mean);
      assert delta * (sample - mean) == CentredGain(n, m, sample);
      history := history + [sample];
      variance := Variance();
    }

    method Reset()
      modifies this
      ensures Valid() && history == []
    {
      count, mean, m2, history := 0, 0.0, 0.0, [];
    }
  }

  /** The mean after one more sample, as the recurrence computes it. */
  function NextMean(n: real, m: real, x: real): real
    requires n >= 0.0
  {
    m + (x - m) / (n + 1.0)
  }

  /** What the recurrence adds to the centred sum of squares. */
  function CentredGain(n: real, m: real, x: real): real
    requires n >= 0.0
  {
    (x - m) * (x - NextMean(n, m, x))
  }

  /** Welford's recurrence: mean and centred sum of squares move on together. */
  lemma {:induction false} WelfordStep(s: seq<real>, x: real)
    ensures var n, m := |s| as real, Mean(s);
      && NextMean(n, m, x) == Mean(s + [x])
      && Deviations(s, m) + CentredGain(n, m, x) == Deviations(s + [x], Mean(s + [x]))
  {
    var m, n := Mean(s), |s| as real;
    SumIsCountTimesMean(s);
    SumAppend(s, x);
    MeanMoves(n, m, x, Sum(s), Mean(s + [x]));
    var mean := Mean(s + [x]);
    DeviationsExpand(s, m);
    DeviationsExpand(s, mean);
    DeviationsAppend(s, x, mean);
    WelfordAlgebra(SumSquares(s), Sum(s), n, m, x, mean);
  }

  lemma {:induction false} SumIsCountTimesMean(s: seq<real>)
    ensures Sum(s) == |s| as real * Mean(s)
  {
  }

  lemma {:induction false} DeviationsAppend(s: seq<real>, x: real, m: real)
    ensures Deviations(s + [x], m) == Deviations(s, m) + Square(x - m)
  {
    assert (s + [x])[..|s|] == s;
  }

  lemma MeanMoves(n: real, m: real, x: real, sum: real, mean: real)
    requires n >= 0.0 && sum == n * m && mean == (sum + x) / (n + 1.0)
    ensures NextMean(n, m, x) == mean
  {
    assert m == m * (n + 1.0) / (n + 1.0);
  }

  lemma WelfordAlgebra(sumsq: real, sum: real, n: real, m: real, x: real, mean: real)
    requires n >= 0.0 && sum == n * m && mean == NextMean(n, m, x)
    ensures Expanded(sumsq, sum, n, m) + CentredGain(n, m, x)
         == Expanded(sumsq, sum, n, mean) + Square(x - mean)
  {
    var d := (x - m) / (n + 1.0);
    assert x == m + (n + 1.0) * d;
    assert mean == m + d;
    CentreShift(n, m, d);
  }

  lemma CentreShift(n: real, m: real, d: real)
    ensures - 2.0 * m * (n * m) + n * m * m + ((n + 1.0) * d) * (n * d)
         == - 2.0 * (m + d) * (n * m) + n * (m + d) * (m + d) + Square(n * d)
  {
  }

  /** One stream through both estimators. */
  method FeedBoth(stream: seq<real>, window: nat, recomputeInterval: nat, minSamples: nat)
    returns (windowed: seq<real>, streaming: seq<real>)
    requires 2 <= window && 0 < recomputeInterval && 2 <= minSamples <= window
    ensures |windowed| == |streaming| == |stream|
    ensures forall i :: 0 <= i < |stream| && i < window ==> windowed[i] == streaming[i]
    ensures forall i :: 0 <= i < |stream| ==> windowed[i] == SampleVariance(LastN(stream[..i + 1], window))
  {
    hide SampleVariance, LastN, RollingVariance.Valid, WelfordVariance.Valid;
    var rolling := new RollingVariance(window, recomputeInterval, minSamples);
    var welford := new WelfordVariance();
    windowed, streaming := [], [];
    for k := 0 to |stream|
      invariant fresh(rolling) && fresh(rolling.buffer) && fresh(rolling.buffer.data) && fresh(welford)
      invariant rolling.Valid() && rolling.buffer.capacity == window && rolling.history == stream[..k]
      invariant welford.Valid() && welford.history == stream[..k]
      invariant |windowed| == |streaming| == k
      invariant forall i :: 0 <= i < k ==> windowed[i] == SampleVariance(LastN(stream[..i + 1], window))
      invariant forall i :: 0 <= i < k ==> streaming[i] == SampleVariance(stream[..i + 1])
    {
      assert stream[..k] + [stream[k]] == stream[..k + 1];
      var inWindow := rolling.Update(stream[k]);
      var overall := welford.Update(stream[k]);
      windowed, streaming := windowed + [inWindow], streaming + [overall];
    }
    forall i | 0 <= i < |stream| && i < window
      ensures windowed[i] == streaming[i]
    {
      NothingEvicted(stream[..i + 1], window);
    }
  }

  lemma NothingEvicted(history: seq<real>, window: nat)
    requires |history| <= window
    ensures LastN(history, window) == history
  {
  }
}
