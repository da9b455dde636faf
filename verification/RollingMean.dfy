/** Sliding-window mean with drift correction
    (snapshot_quant_v4/buffers/rolling_mean.py). Every floating addition and
    subtraction on the running sum is an exact one plus an arbitrary error of
    at most `unit`; with `unit == 0.0` this is exact arithmetic. */
module RollingMeans {
  import opened Prelude
  import opened RingBuffers

  ghost function Mean(s: seq<real>): real {
    if s == [] then 0.0 else Sum(s) / |s| as real
  }

  /** Rounding errors met by one update: two on the running sum, and one for
      each addition of a recomputation. */
  ghost predicate Noise(errors: seq<real>, window: nat, unit: real) {
    && |errors| == window + 2
    && forall e :: e in errors ==> Abs(e) <= unit
  }

  lemma NoiseParts(errors: seq<real>, window: nat, unit: real)
    requires Noise(errors, window, unit)
    ensures Abs(errors[0]) <= unit && Abs(errors[1]) <= unit
    ensures forall e :: e in errors[2..] ==> Abs(e) <= unit
  {
    assert errors[0] in errors && errors[1] in errors;
  }

  /** n errors of size unit, added up. */
  ghost function Times(n: nat, unit: real): real {
    if n == 0 then 0.0 else Times(n - 1, unit) + unit
  }

  /** What the sum may have drifted by since the last exact recomputation: one
      error per sample recomputed, two per push since. */
  ghost function DriftBound(window: nat, since: nat, unit: real): real {
    Times(window + 2 * since, unit)
  }

  lemma {:induction false} TimesIsProduct(n: nat, unit: real)
    ensures Times(n, unit) == n as real * unit
  {
    if n > 0 {
      TimesIsProduct(n - 1, unit);
      assert n as real * unit == (n - 1) as real * unit + unit;
    }
  }

  lemma {:induction false} TimesGrows(a: nat, b: nat, unit: real)
    requires a <= b && 0.0 <= unit
    ensures 0.0 <= Times(a, unit) <= Times(b, unit)
  {
    if a < b {
      TimesGrows(a, b - 1, unit);
    } else if a > 0 {
      TimesGrows(a - 1, a - 1, unit);
    }
  }

  lemma {:induction false} DriftBoundGrows(window: nat, a: nat, b: nat, unit: real)
    requires a <= b && 0.0 <= unit
    ensures 0.0 <= DriftBound(window, a, unit) <= DriftBound(window, b, unit)
  {
    TimesGrows(window + 2 * a, window + 2 * b, unit);
  }

  lemma {:induction false} TwoMoreErrors(window: nat, since: nat, unit: real)
    requires 0 < since
    ensures DriftBound(window, since, unit) == DriftBound(window, since - 1, unit) + 2.0 * unit
  {
    var n := window + 2 * since;
    assert Times(n, unit) == Times(n - 1, unit) + unit == Times(n - 2, unit) + unit + unit;
  }

  lemma OneMoreError(n: nat, unit: real)
    ensures Times(n + 1, unit) == Times(n, unit) + unit
  {
  }

  lemma NoErrorYet(unit: real)
    ensures Times(0, unit) == 0.0 && Sum([]) == 0.0
  {
  }

  /** What a push does to the sum of the window. */
  lemma {:induction false} SumOfWindowMoves(window: seq<real>, sample: real, n: nat)
    requires 0 < n && |window| <= n
    ensures Sum(LastN(window + [sample], n))
         == Sum(window) + sample - (if |window| == n then window[0] else 0.0)
  {
    SumAppend(window, sample);
    if |window| == n {
      SumDropFirst(window + [sample]);
      assert LastN(window + [sample], n) == (window + [sample])[1..];
    }
  }

  class RollingMean {
    const buffer: RingBuffer
    const recomputeInterval: nat
    const minSamples: nat
    var sum: real
    var sinceRecompute: nat
    /** Samples since the last reset. */
    ghost var history: seq<real>
    ghost const unit: real

    ghost predicate Valid()
      reads this, buffer, buffer.data
    {
      && buffer.Valid()
      && 0.0 <= unit
      && buffer.Contents() == LastN(history, buffer.capacity)
      && sinceRecompute < recomputeInterval
      && Abs(sum - Sum(buffer.Contents())) <= DriftBound(buffer.capacity, sinceRecompute, unit)
    }

    ghost function Window(): seq<real>
      reads this
    {
      LastN(history, buffer.capacity)
    }

    constructor (window: nat, recomputeInterval: nat, minSamples: nat, ghost unit: real)
      requires 0 < window && 0 < recomputeInterval && 0 < minSamples <= window && 0.0 <= unit
      ensures Valid() && fresh(buffer) && fresh(buffer.data)
      ensures history == [] && buffer.capacity == window
      ensures this.recomputeInterval == recomputeInterval && this.minSamples == minSamples && this.unit == unit
    {
      this.recomputeInterval, this.minSamples, this.unit := recomputeInterval, minSamples, unit;
      buffer := new RingBuffer(window);
      sum, sinceRecompute, history := 0.0, 0, [];
      new;
      TimesGrows(window, window, unit);
    }

    predicate Ready()
      reads this, buffer
    {
      buffer.count >= minSamples
    }

    /** Current mean, zero when nothing has been seen. */
    function Value(): (mean: real)
      requires Valid()
      reads this, buffer, buffer.data
      ensures unit == 0.0 ==> mean == Mean(Window())
    {
      TimesAtZero(buffer.capacity + 2 * sinceRecompute);
      if buffer.count == 0 then 0.0 else sum / buffer.count as real
    }

    /** The mean times the number of samples. */
    method Total() returns (total: real)
      requires Valid()
      ensures unit == 0.0 ==> total == Sum(Window())
    {
      total := Value() * buffer.count as real;
      TotalFromMean(Value(), buffer.count, Window());
    }

    /** However many updates came before, the running sum is within the drift of
        fewer than recomputeInterval pushes of the exact sum of the window. */
    method Update(sample: real, errors: seq<real>) returns (mean: real)
      requires Valid() && Noise(errors, buffer.capacity, unit)
      modifies this, buffer, buffer.data
      ensures Valid()
      ensures history == old(history) + [sample]
      ensures mean == Value()
      ensures Abs(sum - Sum(Window())) <= DriftBound(buffer.capacity, recomputeInterval - 1, unit)
    {
      hide Times, DriftBound, Sum, LastN, Mean;
      NoiseParts(errors, buffer.capacity, unit);
      Accumulate(sample, errors[0], errors[1]);
      if sinceRecompute >= recomputeInterval {
        Recompute(errors[2..]);
      }
      DriftBoundGrows(buffer.capacity, sinceRecompute, recomputeInterval - 1, unit);
      mean := Value();
    }

    /** The constant-time part of an update: in with the new sample, out with
        the one that left the window. */
    method Accumulate(sample: real, addError: real, subtractError: real)
      requires Valid() && Abs(addError) <= unit && Abs(subtractError) <= unit
      modifies this, buffer, buffer.data
      ensures buffer.Valid()
      ensures history == old(history) + [sample]
      ensures buffer.Contents() == LastN(history, buffer.capacity)
      ensures sinceRecompute == old(sinceRecompute) + 1
      ensures Abs(sum - Sum(buffer.Contents())) <= DriftBound(buffer.capacity, sinceRecompute, unit)
    {
      hide Times, DriftBound, Sum, LastN;
      ghost var before := buffer.Contents();
      LastNAppend(history, sample, buffer.capacity);
      SumOfWindowMoves(before, sample, buffer.capacity);
      TwoMoreErrors(buffer.capacity, sinceRecompute + 1, unit);
      var evicted := buffer.Push(sample);
      history := history + [sample];
      sum := sum + sample + addError;
      if evicted.Some? {
        sum := sum - evicted.value + subtractError;
      }
      sinceRecompute := sinceRecompute + 1;
    }

    /** Sums the window afresh: exact up to one rounding per addition, so
        without rounding it changes nothing that was exact. */
    method Recompute(errors: seq<real>)
      requires buffer.Valid() && 0 < recomputeInterval && 0.0 <= unit
      requires buffer.Contents() == LastN(history, buffer.capacity)
      requires |errors| == buffer.capacity && forall e :: e in errors ==> Abs(e) <= unit
      modifies this`sum, this`sinceRecompute
      ensures Valid() && sinceRecompute == 0
      ensures Abs(sum - Sum(Window())) <= DriftBound(buffer.capacity, 0, unit)
      ensures unit == 0.0 && old(sum) == Sum(Window()) ==> sum == old(sum)
    {
      hide Sum, LastN, Mean, Times;
      var values := buffer.Values();
      var total := 0.0;
      NoErrorYet(unit);
      for k := 0 to |values|
        invariant Abs(total - Sum(values[..k])) <= Times(k, unit)
      {
        assert values[..k + 1] == values[..k] + [values[k]];
        SumAppend(values[..k], values[k]);
        assert errors[k] in errors;
        OneMoreError(k, unit);
        total := total + values[k] + errors[k];
      }
      assert values[..|values|] == values;
      TimesGrows(|values|, buffer.capacity, unit);
      TimesAtZero(|values|);
      sum := total;
      sinceRecompute := 0;
    }

    method Reset()
      requires Valid()
      modifies this, buffer
      ensures Valid()
      ensures history == []
    {
      buffer.Clear();
      history := [];
      sum, sinceRecompute := 0.0, 0;
      TimesGrows(buffer.capacity, buffer.capacity, unit);
    }
  }

  lemma {:induction false} TotalFromMean(mean: real, count: nat, window: seq<real>)
    requires count == |window|
    ensures mean == Mean(window) ==> mean * count as real == Sum(window)
  {
  }

  lemma {:induction false} TimesAtZero(n: nat)
    ensures Times(n, 0.0) == 0.0
  {
    TimesIsProduct(n, 0.0);
  }
}
