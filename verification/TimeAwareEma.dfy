/** Time-aware exponential averages (snapshot_quant_v4/buffers/rolling_ema.py).
    The factor exp(-ln2 * t / half_life) is a function parameter `decay`; all
    that is used of it is that it is an exponential. */
module TimeAwareEmas {
  import opened Prelude

  ghost predicate Multiplies(decay: real -> real, s: real, t: real) {
    decay(s + t) == decay(s) * decay(t)
  }

  ghost predicate Exponential(decay: real -> real) {
    && decay(0.0) == 1.0
    && (forall t :: 0.0 <= t ==> 0.0 < decay(t) <= 1.0)
    && (forall s, t :: 0.0 <= s && 0.0 <= t ==> Multiplies(decay, s, t))
  }

  /** ema_alpha: the weight of a new sample after dt milliseconds. */
  function Alpha(decay: real -> real, maxDt: real, dt: real): (alpha: real) {
    var effective := Clamp(dt, 0.0, maxDt);
    if effective <= 0.0 then 0.0 else 1.0 - decay(effective)
  }

  datatype Ema = Ema(value: real, initialised: bool, updates: nat)

  const EMPTY_EMA := Ema(0.0, false, 0)

  function Blend(decay: real -> real, maxDt: real, value: real, sample: real, dt: real): real {
    value + Alpha(decay, maxDt, dt) * (sample - value)
  }

  /** One observation: the first seeds the average, the others blend in. */
  function Observe(decay: real -> real, maxDt: real, e: Ema, sample: real, dt: real): Ema {
    Ema(if e.initialised then Blend(decay, maxDt, e.value, sample, dt) else sample, true, e.updates + 1)
  }

  /** Some sample is no larger and some sample is no smaller than x. */
  ghost predicate Enclosed(x: real, samples: seq<real>) {
    exists a, b :: a in samples && b in samples && a <= x <= b
  }

  lemma AlphaIsWeight(decay: real -> real, maxDt: real, dt: real)
    requires Exponential(decay) && 0.0 < maxDt
    ensures 0.0 <= Alpha(decay, maxDt, dt) < 1.0
    ensures dt <= 0.0 ==> Alpha(decay, maxDt, dt) == 0.0
  {
    var effective := Clamp(dt, 0.0, maxDt);
    assert 0.0 < decay(effective) <= 1.0;
  }

  /** With any half life at all, the weight is zero for exactly the intervals
      that are not positive. */
  lemma AlphaIsZeroExactlyWhen(decay: real -> real, maxDt: real, dt: real, halfLife: real)
    requires Exponential(decay) && 0.0 < maxDt && 0.0 < halfLife && decay(halfLife) == 0.5
    ensures Alpha(decay, maxDt, dt) == 0.0 <==> dt <= 0.0
  {
    if dt > 0.0 && Alpha(decay, maxDt, dt) == 0.0 {
      NeverDecays(decay, Clamp(dt, 0.0, maxDt), halfLife);
    }
  }

  /** What does not decay over one interval never does. */
  lemma NeverDecays(decay: real -> real, t: real, h: real)
    requires Exponential(decay) && 0.0 < t && decay(t) == 1.0 && 0.0 < h
    ensures decay(h) == 1.0
  {
    var n := (h / t).Floor + 1;
    assert h <= Product(n as real, t) by {
      assert h / t * t == h;
      MulMonotone(t, h / t, n as real);
    }
    OverAndOver(decay, t, n);
    var rest := Product(n as real, t) - h;
    assert Multiplies(decay, h, rest) && h + rest == Product(n as real, t);
    UnitFactor(decay(h), decay(rest));
  }

  lemma UnitFactor(a: real, b: real)
    requires 0.0 < a <= 1.0 && 0.0 < b <= 1.0 && a * b == 1.0
    ensures a == 1.0
  {
    PartOf(b, a);
  }

  lemma {:induction false} OverAndOver(decay: real -> real, t: real, n: nat)
    requires Exponential(decay) && 0.0 <= t && decay(t) == 1.0
    ensures 0.0 <= Product(n as real, t) && decay(Product(n as real, t)) == 1.0
  {
    TimesOneMore(n, t);
    hide Product;
    if n > 0 {
      OverAndOver(decay, t, n - 1);
      assert Multiplies(decay, Product((n - 1) as real, t), t);
    }
  }

  lemma TimesOneMore(n: nat, t: real)
    ensures if n == 0 then Product(n as real, t) == 0.0 else Product(n as real, t) == Product((n - 1) as real, t) + t
  {
  }

  lemma BlendIsBetween(decay: real -> real, maxDt: real, value: real, sample: real, dt: real)
    requires Exponential(decay) && 0.0 < maxDt
    ensures MinReal(value, sample) <= Blend(decay, maxDt, value, sample, dt) <= MaxReal(value, sample)
  {
    AlphaIsWeight(decay, maxDt, dt);
    ConvexStep(Alpha(decay, maxDt, dt), value, sample);
  }

  lemma ConvexStep(alpha: real, value: real, sample: real)
    requires 0.0 <= alpha <= 1.0
    ensures MinReal(value, sample) <= value + alpha * (sample - value) <= MaxReal(value, sample)
  {
    var gap := sample - value;
    if gap >= 0.0 {
      PartOf(alpha, gap);
    } else {
      PartOf(alpha, -gap);
      assert alpha * -gap == -(alpha * gap);
    }
  }

  lemma PartOf(alpha: real, whole: real)
    requires 0.0 <= alpha <= 1.0 && 0.0 <= whole
    ensures 0.0 <= alpha * whole <= whole
  {
    assert (1.0 - alpha) * whole >= 0.0;
  }

  class TimeAwareEMA {
    const decay: real -> real
    const maxDt: real
    const warmup: nat
    var value: real
    var initialised: bool
    var updates: nat
    /** Samples since the last reset. */
    ghost var history: seq<real>

    ghost predicate Valid()
      reads this
    {
      && Exponential(decay) && 0.0 < maxDt && 1 <= warmup
      && updates == |history|
      && (initialised <==> history != [])
      && (initialised ==> Enclosed(value, history))
      && (!initialised ==> value == 0.0)
    }

    function State(): Ema
      reads this
    {
      Ema(value, initialised, updates)
    }

    constructor (decay: real -> real, maxDt: real, warmup: nat)
      requires Exponential(decay) && 0.0 < maxDt && 1 <= warmup
      ensures Valid() && history == [] && State() == EMPTY_EMA
      ensures this.decay == decay && this.maxDt == maxDt && this.warmup == warmup
    {
      this.decay, this.maxDt, this.warmup := decay, maxDt, warmup;
      value, initialised, updates, history := 0.0, false, 0, [];
    }

    /** The average moves as Observe says and never leaves the range of the
        samples seen since the reset. */
    method Update(sample: real, dt: real) returns (r: real)
      requires Valid()
      modifies this
      ensures Valid() && history == old(history) + [sample]
      ensures State() == Observe(decay, maxDt, old(State()), sample, dt) && r == value
      ensures Enclosed(value, history)
    {
      updates := updates + 1;
      history := history + [sample];
      assert sample in history;
      if !initialised {
        value, initialised := sample, true;
        return value;
      }
      BlendIsBetween(decay, maxDt, value, sample, dt);
      assert forall x :: x in old(history) ==> x in history;
      var alpha := Alpha(decay, maxDt, dt);
      value := value + alpha * (sample - value);
      r := value;
    }

    method Reset()
      requires Valid()
      modifies this
      ensures Valid() && history == [] && State() == EMPTY_EMA
    {
      value, initialised, updates, history := 0.0, false, 0, [];
    }
  }

  // -- sampling-rate invariance ------------------------------------------------

  /** A seeded average fed one constant sample at the given intervals. */
  function Hold(decay: real -> real, maxDt: real, value: real, sample: real, dts: seq<real>): real {
    if dts == [] then value
    else Blend(decay, maxDt, Hold(decay, maxDt, value, sample, dts[..|dts| - 1]), sample, dts[|dts| - 1])
  }

  ghost predicate Intervals(dts: seq<real>, maxDt: real) {
    forall i :: 0 <= i < |dts| ==> 0.0 <= dts[i] <= maxDt
  }

  lemma {:induction false} IntervalsSum(dts: seq<real>, maxDt: real)
    requires Intervals(dts, maxDt)
    ensures 0.0 <= Sum(dts)
  {
    if dts != [] {
      IntervalsSum(dts[..|dts| - 1], maxDt);
    }
  }

  /** The point a fraction f of the way from the sample back to the value. */
  function Toward(value: real, sample: real, f: real): real {
    sample + (value - sample) * f
  }

  /** Under a constant input only the elapsed time matters, not how it was
      split into updates. */
  lemma {:induction false} HoldDependsOnElapsedTime(decay: real -> real, maxDt: real, value: real, sample: real,
                                                    dts: seq<real>)
    requires Exponential(decay) && 0.0 < maxDt && Intervals(dts, maxDt)
    ensures Hold(decay, maxDt, value, sample, dts) == Toward(value, sample, decay(Sum(dts)))
  {
    if dts != [] {
      var before, dt := dts[..|dts| - 1], dts[|dts| - 1];
      HoldDependsOnElapsedTime(decay, maxDt, value, sample, before);
      IntervalsSum(before, maxDt);
      assert Multiplies(decay, Sum(before), dt) && Sum(dts) == Sum(before) + dt;
      assert Alpha(decay, maxDt, dt) == 1.0 - decay(dt);
      hide Exponential, Alpha, Sum, Intervals, Toward;
      OneHold(value, sample, decay(Sum(before)), decay(dt));
    }
  }

  /** What counts of some intervals: nothing of one that runs backwards, and no
      more than maxDt of one that is longer. */
  function Effectual(maxDt: real, dts: seq<real>): (r: seq<real>)
    ensures |r| == |dts|
  {
    seq(|dts|, i requires 0 <= i < |dts| => if dts[i] < 0.0 then 0.0 else MinReal(maxDt, dts[i]))
  }

  /** The same for intervals of any length and sign: the value depends on the sum
      of what counts of them alone, so a pause beyond maxDt moves it no further. */
  lemma {:induction false} HoldDependsOnCountedTime(decay: real -> real, maxDt: real, value: real, sample: real,
                                                    dts: seq<real>)
    requires Exponential(decay) && 0.0 < maxDt
    ensures Hold(decay, maxDt, value, sample, dts) == Toward(value, sample, decay(Sum(Effectual(maxDt, dts))))
  {
    HoldDependsOnElapsedTime(decay, maxDt, value, sample, Effectual(maxDt, dts));
    HoldCounts(decay, maxDt, value, sample, dts);
  }

  lemma {:induction false} HoldCounts(decay: real -> real, maxDt: real, value: real, sample: real, dts: seq<real>)
    requires 0.0 < maxDt
    ensures Hold(decay, maxDt, value, sample, dts) == Hold(decay, maxDt, value, sample, Effectual(maxDt, dts))
  {
    if dts != [] {
      var before := dts[..|dts| - 1];
      HoldCounts(decay, maxDt, value, sample, before);
      assert Effectual(maxDt, dts)[..|dts| - 1] == Effectual(maxDt, before);
    }
  }

  lemma OneHold(value: real, sample: real, a: real, b: real)
    ensures Toward(value, sample, a) + (1.0 - b) * (sample - Toward(value, sample, a)) == Toward(value, sample, a * b)
  {
    var gap := value - sample;
    assert gap * a + (1.0 - b) * (0.0 - gap * a) == gap * (a * b);
  }

  /** After one half life, however sampled, half of the distance is left. */
  lemma {:induction false} HalfLifeHalves(decay: real -> real, maxDt: real, value: real, sample: real, dts: seq<real>,
                                          halfLife: real)
    requires Exponential(decay) && 0.0 < maxDt && Intervals(dts, maxDt)
    requires decay(halfLife) == 0.5 && Sum(dts) == halfLife
    ensures Hold(decay, maxDt, value, sample, dts) - sample == (value - sample) / 2.0
  {
    HoldDependsOnElapsedTime(decay, maxDt, value, sample, dts);
  }

  /** One level of a piecewise-constant input and the intervals it is sampled at. */
  datatype Segment = Segment(sample: real, dts: seq<real>)

  function Follow(decay: real -> real, maxDt: real, value: real, segments: seq<Segment>): real {
    if segments == [] then value
    else
      var last := segments[|segments| - 1];
      Hold(decay, maxDt, Follow(decay, maxDt, value, segments[..|segments| - 1]), last.sample, last.dts)
  }

  /** Two samplings of the same piecewise-constant signal. */
  ghost predicate SameSignal(a: seq<Segment>, b: seq<Segment>, maxDt: real) {
    && |a| == |b|
    && forall i :: 0 <= i < |a| ==>
         && a[i].sample == b[i].sample
         && Sum(a[i].dts) == Sum(b[i].dts)
         && Intervals(a[i].dts, maxDt) && Intervals(b[i].dts, maxDt)
  }

  lemma {:induction false} SamplingRateInvariance(decay: real -> real, maxDt: real, value: real, a: seq<Segment>,
                                                  b: seq<Segment>)
    requires Exponential(decay) && 0.0 < maxDt && SameSignal(a, b, maxDt)
    ensures Follow(decay, maxDt, value, a) == Follow(decay, maxDt, value, b)
  {
    if a != [] {
      var n := |a| - 1;
      SamplingRateInvariance(decay, maxDt, value, a[..n], b[..n]);
      var v := Follow(decay, maxDt, value, a[..n]);
      HoldDependsOnElapsedTime(decay, maxDt, v, a[n].sample, a[n].dts);
      HoldDependsOnElapsedTime(decay, maxDt, v, b[n].sample, b[n].dts);
    }
  }
}
