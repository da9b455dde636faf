/** The regime detector (snapshot_quant_v4/engine/regime.py): an instantaneous
    label and the hysteresis that decides when to hold it. */
module RegimeDetection {
  import opened Prelude

  datatype Regime = Unknown | Trend | Pullback | Range | Noise

  datatype RegimeConfig = RegimeConfig(
    window: nat,
    erTrend: real,
    erRange: real,
    volHighTicks: real,
    trendMinTicks: real,
    pullbackMinEr: real,
    minDwellSnapshots: int,
    confirmSnapshots: int,
    minSamples: int)

  /** The range checks of snapshot_quant_v4/config.py:719-745. */
  predicate ValidConfig(c: RegimeConfig) {
    && 4 <= c.window
    && 0.0 <= c.erRange <= c.erTrend <= 1.0
    && 0.0 <= c.trendMinTicks
    && 0.0 <= c.pullbackMinEr <= 1.0
    && 1 <= c.minDwellSnapshots && 1 <= c.confirmSnapshots
    && 2 <= c.minSamples <= c.window
  }

  /** What one classification looks at. */
  datatype Reading = Reading(
    snapshots: nat,
    trendReady: bool,
    efficiency: real,
    volatility: real,
    trend: real,
    momentumSign: int)

  function Classify(c: RegimeConfig, r: Reading): Regime {
    if r.snapshots < c.minSamples || !r.trendReady then Unknown
    else
      var directional := Abs(r.trend) >= c.trendMinTicks;
      var opposed := directional && r.momentumSign != 0 && r.momentumSign == -Sign(r.trend);
      if r.volatility >= c.volHighTicks && r.efficiency < c.erTrend then Noise
      else if r.efficiency >= c.erTrend && directional then (if opposed then Pullback else Trend)
      else if r.efficiency >= c.pullbackMinEr && opposed then Pullback
      else if r.efficiency <= c.erRange && r.volatility < c.volHighTicks then Range
      else Noise
  }

  function MirrorReading(r: Reading): Reading {
    r.(trend := -r.trend, momentumSign := -r.momentumSign)
  }

  /** Labels do not distinguish up from down. */
  lemma MirrorClassify(c: RegimeConfig, r: Reading)
    ensures Classify(c, MirrorReading(r)) == Classify(c, r)
  {
  }

  /** Each label by its own condition, free of the order of the tests. Violent
      without efficiency is noise, and so is what no other label claims: too
      efficient for a range, too inefficient for a direction. */
  lemma LabelsExactlyWhen(c: RegimeConfig, r: Reading)
    requires ValidConfig(c) && -1 <= r.momentumSign <= 1
    ensures var known := r.snapshots >= c.minSamples && r.trendReady;
      var directional := Abs(r.trend) >= c.trendMinTicks;
      var opposed := directional && r.momentumSign * Sign(r.trend) == -1;
      var violent, efficient := r.volatility >= c.volHighTicks, r.efficiency >= c.erTrend;
      var retracing := opposed && r.efficiency >= c.pullbackMinEr;
      && (Classify(c, r) == Unknown <==> !known)
      && (Classify(c, r) == Trend <==> known && directional && !opposed && efficient)
      && (Classify(c, r) == Pullback <==> known && (if efficient then opposed else retracing && !violent))
      && (Classify(c, r) == Range <==>
            known && !violent && r.efficiency <= c.erRange && !(directional && efficient) && !retracing)
      && (Classify(c, r) == Noise <==>
            known && if efficient then !directional && (violent || r.efficiency > c.erRange)
                     else violent || (r.efficiency > c.erRange && !retracing))
  {
  }

  // -- hysteresis ---------------------------------------------------------------

  datatype Detector = Detector(regime: Regime, dwell: nat, candidate: Regime, candidateCount: nat)

  const FRESH := Detector(Unknown, 0, Unknown, 0)

  /** One proposed label. */
  function Hysteresis(c: RegimeConfig, d: Detector, proposed: Regime): Detector {
    if proposed == d.regime then Detector(d.regime, d.dwell + 1, proposed, 0)
    else
      var count := if proposed == d.candidate then d.candidateCount + 1 else 1;
      if count >= c.confirmSnapshots && (d.regime == Unknown || d.dwell + 1 >= c.minDwellSnapshots) then
        Detector(proposed, 0, proposed, 0)
      else
        Detector(d.regime, d.dwell + 1, proposed, count)
  }

  class RegimeDetector {
    const config: RegimeConfig
    var regime: Regime
    var dwell: nat
    var candidate: Regime
    var candidateCount: nat

    function Now(): Detector
      reads this
    {
      Detector(regime, dwell, candidate, candidateCount)
    }

    constructor (config: RegimeConfig)
      ensures this.config == config && Now() == FRESH
    {
      this.config := config;
      regime, dwell, candidate, candidateCount := Unknown, 0, Unknown, 0;
    }

    method Reset()
      modifies this
      ensures Now() == FRESH
    {
      regime, dwell, candidate, candidateCount := Unknown, 0, Unknown, 0;
    }

    method Update(r: Reading) returns (current: Regime)
      modifies this
      ensures Now() == Hysteresis(config, old(Now()), Classify(config, r)) && current == regime
    {
      ApplyHysteresis(Classify(config, r));
      current := regime;
    }

    method ApplyHysteresis(proposed: Regime)
      modifies this
      ensures Now() == Hysteresis(config, old(Now()), proposed)
    {
      dwell := dwell + 1;
      if proposed == regime {
        candidate, candidateCount := proposed, 0;
        return;
      }
      if proposed == candidate {
        candidateCount := candidateCount + 1;
      } else {
        candidate, candidateCount := proposed, 1;
      }
      var confirmed := candidateCount >= config.confirmSnapshots;
      var dwelt := regime == Unknown || dwell >= config.minDwellSnapshots;
      if confirmed && dwelt {
        regime, dwell, candidateCount := proposed, 0, 0;
      }
    }
  }

  // -- runs ---------------------------------------------------------------------

  /** The detector after the first k proposals. */
  function At(c: RegimeConfig, ps: seq<Regime>, k: nat): Detector
    requires k <= |ps|
  {
    if k == 0 then FRESH else Hysteresis(c, At(c, ps, k - 1), ps[k - 1])
  }

  /** Proposal k changes the label. */
  predicate Changes(c: RegimeConfig, ps: seq<Regime>, k: nat)
    requires k < |ps|
  {
    At(c, ps, k + 1).regime != At(c, ps, k).regime
  }

  /** The n proposals ending with number k are all the same. */
  predicate Repeated(ps: seq<Regime>, k: nat, n: int)
    requires k < |ps|
  {
    n <= k + 1 && forall j :: 0 <= j && k - n < j <= k ==> ps[j] == ps[k]
  }

  /** The label has been the same for the last n snapshots before proposal k. */
  predicate Held(c: RegimeConfig, ps: seq<Regime>, k: nat, n: int)
    requires k < |ps|
  {
    n <= k && forall j :: 0 <= j && k - n < j <= k ==> At(c, ps, j).regime == At(c, ps, k).regime
  }

  /** What the counters count: how long the label has been held, and how many
      equal proposals against it came last. */
  ghost predicate CountersExact(c: RegimeConfig, ps: seq<Regime>, k: nat)
    requires k <= |ps|
  {
    var d := At(c, ps, k);
    && d.dwell <= k && d.candidateCount <= d.dwell
    && (forall j :: k - d.dwell <= j <= k ==> At(c, ps, j).regime == d.regime)
    && (if d.dwell == k then d.regime == Unknown
        else At(c, ps, k - d.dwell - 1).regime != d.regime && ps[k - d.dwell - 1] == d.regime)
    && (forall j :: k - d.candidateCount <= j < k ==> ps[j] == d.candidate)
    && (d.candidateCount > 0 ==> d.candidate != d.regime)
    && (d.candidateCount == 0 ==> d.candidate == d.regime)
    && (d.candidateCount < k ==> ps[k - d.candidateCount - 1] != d.candidate || d.candidateCount == 0)
    && (d.candidateCount == 0 && k > 0 ==> ps[k - 1] == d.regime)
  }

  lemma {:induction false} CountersAreExact(c: RegimeConfig, ps: seq<Regime>, k: nat)
    requires ValidConfig(c) && k <= |ps|
    ensures CountersExact(c, ps, k)
  {
    if k > 0 {
      CountersAreExact(c, ps, k - 1);
    }
  }

  /** The label changes to a proposal exactly when that proposal is new, has been
      made confirmSnapshots times in a row, and the old label is Unknown or has
      been reported for at least minDwellSnapshots snapshots. */
  lemma {:induction false} ChangesExactlyWhen(c: RegimeConfig, ps: seq<Regime>, k: nat)
    requires ValidConfig(c) && k < |ps|
    ensures Changes(c, ps, k) <==>
      && ps[k] != At(c, ps, k).regime
      && Repeated(ps, k, c.confirmSnapshots)
      && (At(c, ps, k).regime == Unknown || Held(c, ps, k, c.minDwellSnapshots))
    ensures Changes(c, ps, k) ==> At(c, ps, k + 1).regime == ps[k]
  {
    CountersAreExact(c, ps, k);
  }

  /** Two changes are at least confirmSnapshots apart, and at least
      minDwellSnapshots apart when the label between them is known: every
      known label is reported for that long. */
  lemma {:induction false} LabelsLast(c: RegimeConfig, ps: seq<Regime>, i: nat, j: nat)
    requires ValidConfig(c) && i < j < |ps| && Changes(c, ps, i) && Changes(c, ps, j)
    ensures j - i >= c.confirmSnapshots
    ensures At(c, ps, j).regime != Unknown ==> j - i >= c.minDwellSnapshots
  {
    CountersAreExact(c, ps, j);
    assert At(c, ps, i + 1).regime != At(c, ps, i).regime;
  }
}
