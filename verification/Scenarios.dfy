/** The deterministic market scenarios (snapshot_quant_v4/adapter/scenarios.py)
    and what the validator makes of them. Random draws are arbitrary inputs
    within the ranges they are drawn from. */
module Scenarios {
  import opened Prelude
  import opened Rounding
  import opened MarketRecords
  import opened SnapshotValidation

  datatype Scenario = Upward | Downward | Noise | Random

  datatype ScenarioConfig = ScenarioConfig(
    scenario: Scenario,
    tickPaise: int,
    startPricePaise: int,
    baseQuantity: int,
    initialVolume: int,
    tradeSize: int,
    intervalMs: int,
    baseTimestampMs: int,
    count: int)

  const NOISE_STEPS := [4, -7, 6, -5, 7, -6, 3, -2]
  const NOISE_SPREADS := [1, 3, 2, 4, 1, 4, 2, 3]
  const DEPTH_PROFILE := [1.00, 0.82, 0.67, 0.55, 0.45]
  const MIN_SIDE_SCALE := 0.12

  function MinimumBid(c: ScenarioConfig): int {
    c.tickPaise * (DEPTH_LEVELS + 1)
  }

  /** The construction guards. */
  predicate ValidScenario(c: ScenarioConfig) {
    && 0 < c.tickPaise && 0 < c.startPricePaise && c.startPricePaise % c.tickPaise == 0
    && 0 < c.baseQuantity && 0 <= c.initialVolume && 0 < c.tradeSize
    && 0 < c.intervalMs && 0 < c.baseTimestampMs && 0 < c.count
    && (c.scenario == Downward ==> MinimumBid(c) <= c.startPricePaise - (c.count - 1) * c.tickPaise)
  }

  /** One event's worth of random numbers. */
  datatype Draw = Draw(step: int, pressureNoise: real, spreadChance: real, spread: int, traded: int,
                       bidVariation: seq<real>, askVariation: seq<real>)

  predicate ValidDraw(c: ScenarioConfig, d: Draw) {
    && -2 <= d.step <= 2
    && -0.58 <= d.pressureNoise <= 0.58
    && 2 <= d.spread <= 4
    && MaxInt(1, c.tradeSize / 3) <= d.traded <= c.tradeSize * 2
    && |d.bidVariation| == |d.askVariation| == DEPTH_LEVELS
  }

  datatype MarketStep = MarketStep(stepTicks: int, pressure: real, spreadTicks: int, traded: int)

  function StepOf(c: ScenarioConfig, index: nat, d: Draw): MarketStep {
    match c.scenario
    case Upward => MarketStep(1, 0.78, 1, c.tradeSize)
    case Downward => MarketStep(-1, -0.78, 1, c.tradeSize)
    case Noise =>
      var cycle := index % |NOISE_STEPS|;
      MarketStep(NOISE_STEPS[cycle], if NOISE_STEPS[cycle] > 0 then 0.88 else -0.88, NOISE_SPREADS[cycle],
                 c.tradeSize + (index % 5) * 17)
    case Random =>
      MarketStep(d.step, Clamp(0.22 * d.step as real + d.pressureNoise, -0.90, 0.90),
                 if d.spreadChance < 0.78 then 1 else d.spread, d.traded)
  }

  lemma StepIsBounded(c: ScenarioConfig, index: nat, d: Draw)
    requires ValidScenario(c) && ValidDraw(c, d)
    ensures var s := StepOf(c, index, d);
      -7 <= s.stepTicks <= 7 && 1 <= s.spreadTicks <= 4 && 1 <= s.traded
  {
  }

  // -- what a stream of books looks like ----------------------------------------

  /** Price as the level record carries it, in rupees. */
  function Rupees(paise: int): real {
    paise as real / 100.0
  }

  /** Size and order count at a level: pressure towards a side swells it. */
  function SizeAt(c: ScenarioConfig, pressure: real, variation: real, k: nat): int
    requires k < DEPTH_LEVELS
  {
    MaxInt(1, Round(Product(Product(c.baseQuantity as real, DEPTH_PROFILE[k]),
                            Product(MaxReal(MIN_SIDE_SCALE, 1.0 + pressure), variation))))
  }

  function OrdersAt(quantity: int, k: nat): int {
    MaxInt(1, Round(quantity as real / (150.0 + 25.0 * k as real)))
  }

  /** Only the random scenarios vary their sizes. */
  function VariationAt(c: ScenarioConfig, variation: seq<real>, k: nat): real
    requires k < |variation|
  {
    if c.scenario in {Noise, Random} then variation[k] else 1.0
  }

  predicate IsLevel(c: ScenarioConfig, side: Side, touch: int, pressure: real, variation: seq<real>, k: nat,
                    l: DepthLevel)
    requires k < DEPTH_LEVELS == |variation|
  {
    && l.pricePaise == (if side == Bid then touch - c.tickPaise * k else touch + c.tickPaise * k)
    && l.price == Rupees(l.pricePaise)
    && l.quantity == SizeAt(c, pressure, VariationAt(c, variation, k), k)
    && l.orders == OrdersAt(l.quantity, k)
  }

  /** Five levels one tick apart from the touch, sized by pressure and depth. */
  ghost predicate IsLadder(c: ScenarioConfig, side: Side, touch: int, pressure: real, variation: seq<real>,
                           levels: seq<DepthLevel>) {
    && |levels| == DEPTH_LEVELS == |variation|
    && forall k :: 0 <= k < |levels| ==> IsLevel(c, side, touch, pressure, variation, k, levels[k])
  }

  /** Where the generator is between two events. */
  datatype Source = Source(bestBidPaise: int, volume: int, emitted: nat)

  function Opening(c: ScenarioConfig): Source {
    Source(c.startPricePaise, c.initialVolume, 0)
  }

  /** The touch after an event: moved by whole ticks, floored so that five
      levels keep positive prices. UPWARD and DOWNWARD do not move at first. */
  function NextBid(c: ScenarioConfig, s: Source, d: Draw): int {
    var moves := s.emitted > 0 || c.scenario in {Noise, Random};
    MaxInt(MinimumBid(c), s.bestBidPaise + if moves then StepOf(c, s.emitted, d).stepTicks * c.tickPaise else 0)
  }

  function Next(c: ScenarioConfig, s: Source, d: Draw): Source {
    Source(NextBid(c, s, d), s.volume + StepOf(c, s.emitted, d).traded, s.emitted + 1)
  }

  function SourceAt(c: ScenarioConfig, draws: seq<Draw>, k: nat): Source
    requires k <= |draws|
  {
    if k == 0 then Opening(c) else Next(c, SourceAt(c, draws, k - 1), draws[k - 1])
  }

  /** The snapshot shows exactly the source after event k. */
  ghost predicate Shows(c: ScenarioConfig, draws: seq<Draw>, k: nat, raw: RawSnapshot)
    requires k < |draws|
  {
    var s, step := SourceAt(c, draws, k + 1), StepOf(c, k, draws[k]);
    var ask := s.bestBidPaise + step.spreadTicks * c.tickPaise;
    && raw.exchangeTimestampMs == c.baseTimestampMs + (k + 1) * c.intervalMs
    && raw.sequenceNumber == k + 1
    && raw.volumeTradedToday == s.volume
    && raw.lastTradedPrice == Rupees(if step.pressure >= 0.0 then ask else s.bestBidPaise)
    && IsLadder(c, Bid, s.bestBidPaise, step.pressure, draws[k].bidVariation, raw.bids)
    && IsLadder(c, Ask, ask, -step.pressure, draws[k].askVariation, raw.asks)
  }

  // -- the generator ------------------------------------------------------------

  method Ladder(c: ScenarioConfig, side: Side, touch: int, pressure: real, variation: seq<real>)
    returns (levels: seq<DepthLevel>)
    requires |variation| == DEPTH_LEVELS
    ensures IsLadder(c, side, touch, pressure, variation, levels)
  {
    hide Round, Product, MaxReal, MaxInt;
    var sideScale := MaxReal(MIN_SIDE_SCALE, 1.0 + pressure);
    var randomise := c.scenario in {Noise, Random};
    var stepPaise := if side == Bid then -c.tickPaise else c.tickPaise;
    levels := [];
    for k := 0 to DEPTH_LEVELS
      invariant |levels| == k
      invariant forall j :: 0 <= j < k ==> IsLevel(c, side, touch, pressure, variation, j, levels[j])
    {
      var v := if randomise then variation[k] else 1.0;
      var quantity := MaxInt(1, Round(Product(Product(c.baseQuantity as real, DEPTH_PROFILE[k]),
                                              Product(sideScale, v))));
      var orders := MaxInt(1, Round(quantity as real / (150.0 + 25.0 * k as real)));
      var pricePaise := touch + stepPaise * k;
      Outwards(c.tickPaise, k);
      levels := levels + [DepthLevel(pricePaise, Rupees(pricePaise), quantity, orders)];
    }
  }

  lemma Outwards(tickPaise: int, k: nat)
    ensures -tickPaise * k == -(tickPaise * k)
  {
  }

  method Snapshots(c: ScenarioConfig, draws: seq<Draw>) returns (stream: seq<RawSnapshot>)
    requires ValidScenario(c) && |draws| == c.count && forall k :: 0 <= k < |draws| ==> ValidDraw(c, draws[k])
    ensures |stream| == c.count
    ensures forall k :: 0 <= k < |stream| ==> Shows(c, draws, k, stream[k])
  {
    hide IsLadder, StepOf, Shows;
    var bestBidPaise := c.startPricePaise;
    var volume := c.initialVolume;
    var emitted := 0;
    stream := [];
    for index := 0 to c.count
      invariant emitted == index == |stream|
      invariant SourceAt(c, draws, index) == Source(bestBidPaise, volume, emitted)
      invariant forall k :: 0 <= k < |stream| ==> Shows(c, draws, k, stream[k])
    {
      var step := StepOf(c, index, draws[index]);
      if index > 0 || c.scenario in {Noise, Random} {
        bestBidPaise := bestBidPaise + step.stepTicks * c.tickPaise;
      }
      bestBidPaise := MaxInt(MinimumBid(c), bestBidPaise);
      var bestAskPaise := bestBidPaise + step.spreadTicks * c.tickPaise;
      var bids := Ladder(c, Bid, bestBidPaise, step.pressure, draws[index].bidVariation);
      var asks := Ladder(c, Ask, bestAskPaise, -step.pressure, draws[index].askVariation);
      var lastPaise := if step.pressure >= 0.0 then bestAskPaise else bestBidPaise;
      volume := volume + step.traded;
      emitted := emitted + 1;
      var raw := RawSnapshot(c.baseTimestampMs + emitted * c.intervalMs, emitted, Rupees(lastPaise), volume, bids,
                             asks);
      NextShown(c, draws, index, raw);
      stream := stream + [raw];
    }
  }

  lemma NextShown(c: ScenarioConfig, draws: seq<Draw>, k: nat, raw: RawSnapshot)
    requires k < |draws|
    requires var (s, step) := (SourceAt(c, draws, k + 1), StepOf(c, k, draws[k]));
      var ask := s.bestBidPaise + step.spreadTicks * c.tickPaise;
      && raw.exchangeTimestampMs == c.baseTimestampMs + (k + 1) * c.intervalMs
      && raw.sequenceNumber == k + 1 && raw.volumeTradedToday == s.volume
      && raw.lastTradedPrice == Rupees(if step.pressure >= 0.0 then ask else s.bestBidPaise)
      && IsLadder(c, Bid, s.bestBidPaise, step.pressure, draws[k].bidVariation, raw.bids)
      && IsLadder(c, Ask, ask, -step.pressure, draws[k].askVariation, raw.asks)
    ensures Shows(c, draws, k, raw)
  {
  }

  // -- the generator against the validator --------------------------------------

  /** A validator set up for this source. */
  predicate Matches(c: ScenarioConfig, v: ValidationConfig, tick: real) {
    && tick == Rupees(c.tickPaise)
    && 4.0 <= v.maxSpreadTicks
    && 8.5 <= v.maxPriceGapTicks
    && c.intervalMs as real <= v.maxSnapshotGapMs
    && c.intervalMs as real <= v.maxStalenessMs
    && v.minPrice <= Rupees(MinimumBid(c))
  }

  /** Prices stay on the tick grid and above the floor. */
  lemma {:induction false} BidOnGrid(c: ScenarioConfig, draws: seq<Draw>, k: nat)
    requires ValidScenario(c) && k <= |draws|
    ensures SourceAt(c, draws, k).bestBidPaise % c.tickPaise == 0
    ensures SourceAt(c, draws, k).emitted == k
    ensures 0 < k ==> MinimumBid(c) <= SourceAt(c, draws, k).bestBidPaise
  {
    if k > 0 {
      BidOnGrid(c, draws, k - 1);
      var s := SourceAt(c, draws, k - 1);
      Multiples(c.tickPaise, s.bestBidPaise, StepOf(c, s.emitted, draws[k - 1]).stepTicks);
      Multiples(c.tickPaise, 0, DEPTH_LEVELS + 1);
    }
  }

  lemma Multiples(tick: int, base: int, n: int)
    requires 0 < tick && base % tick == 0
    ensures (base + n * tick) % tick == 0
  {
    var q := base / tick;
    assert base == q * tick;
    assert base + n * tick == (q + n) * tick;
    MultipleHasNoRest(q + n, tick);
  }

  lemma Compare(a: int, b: int, t: int)
    requires 0 < t && a * t < b * t
    ensures a < b
  {
  }

  lemma MultipleHasNoRest(q: int, tick: int)
    requires 0 < tick
    ensures q * tick % tick == 0
  {
    var r := q * tick % tick;
    var p := q * tick / tick;
    assert r == (q - p) * tick && 0 <= r < tick;
    Compare(q - p, 1, tick);
    Compare(-1, q - p, tick);
  }

  lemma OnGridIsAligned(paise: int, tickPaise: int, tick: real)
    requires 0 < tickPaise && paise % tickPaise == 0 && tick == Rupees(tickPaise)
    ensures IsTickAligned(Rupees(paise), tick)
  {
    var q := paise / tickPaise;
    assert paise == q * tickPaise;
    assert Rupees(paise) == q as real * tick;
    assert Rupees(paise) / tick == q as real;
    RoundOfInteger(q);
  }

  /** Distances of whole half-ticks in paise are those half-ticks. */
  lemma InTicks(halfTicks: int, tickPaise: int, tick: real, difference: real)
    requires 0 < tickPaise && tick == Rupees(tickPaise)
    requires difference == halfTicks as real * tickPaise as real / 200.0
    ensures ToTicks(difference, tick) == halfTicks as real / 2.0
  {
    assert tick >= 0.01;
    assert difference == halfTicks as real / 2.0 * tick;
    assert difference / tick == halfTicks as real / 2.0;
  }

  lemma LadderIsSound(c: ScenarioConfig, side: Side, touch: int, pressure: real, variation: seq<real>,
                      levels: seq<DepthLevel>)
    requires ValidScenario(c) && MinimumBid(c) <= touch && IsLadder(c, side, touch, pressure, variation, levels)
    ensures SoundLadder(side, levels) && levels[0].pricePaise == touch && levels[0].price == Rupees(touch)
    ensures levels[0].quantity >= 1
  {
    hide Round, Product, SizeAt, OrdersAt, IsLevel;
    forall i, j | 0 <= i < j < |levels|
      ensures Away(side, levels[i].pricePaise, levels[j].pricePaise)
    {
      LevelShape(c, side, touch, pressure, variation, i, levels[i]);
      LevelShape(c, side, touch, pressure, variation, j, levels[j]);
      FurtherOut(c.tickPaise, i, j);
    }
    forall l | l in levels
      ensures SoundLevel(l)
    {
      var k :| 0 <= k < |levels| && levels[k] == l;
      LevelShape(c, side, touch, pressure, variation, k, l);
      FurtherOut(c.tickPaise, k, DEPTH_LEVELS);
    }
    LevelShape(c, side, touch, pressure, variation, 0, levels[0]);
  }

  lemma LevelShape(c: ScenarioConfig, side: Side, touch: int, pressure: real, variation: seq<real>, k: nat,
                   l: DepthLevel)
    requires k < DEPTH_LEVELS == |variation| && IsLevel(c, side, touch, pressure, variation, k, l)
    ensures l.pricePaise == (if side == Bid then touch - c.tickPaise * k else touch + c.tickPaise * k)
    ensures l.price == Rupees(l.pricePaise) && l.quantity >= 1 && l.orders >= 1
  {
    hide Round, Product;
  }

  lemma FurtherOut(tickPaise: int, i: int, j: int)
    requires 0 < tickPaise && 0 <= i < j
    ensures 0 <= tickPaise * i < tickPaise * j
  {
  }

  lemma BookIsSound(c: ScenarioConfig, v: ValidationConfig, tick: real, draws: seq<Draw>, k: nat, raw: RawSnapshot)
    requires ValidScenario(c) && k < |draws| && ValidDraw(c, draws[k])
    requires Matches(c, v, tick) && 0.0 < tick && Shows(c, draws, k, raw)
    ensures SoundBook(v, tick, raw)
  {
    hide IsTickAligned, ToTicks, SoundLadder, StepOf;
    var step := StepOf(c, k, draws[k]);
    var bid := SourceAt(c, draws, k + 1).bestBidPaise;
    var ask := bid + step.spreadTicks * c.tickPaise;
    BidOnGrid(c, draws, k + 1);
    StepIsBounded(c, k, draws[k]);
    SpreadPaise(step.spreadTicks, c.tickPaise);
    LadderIsSound(c, Bid, bid, step.pressure, draws[k].bidVariation, raw.bids);
    LadderIsSound(c, Ask, ask, -step.pressure, draws[k].askVariation, raw.asks);
    OnGridIsAligned(bid, c.tickPaise, tick);
    Multiples(c.tickPaise, bid, step.spreadTicks);
    OnGridIsAligned(ask, c.tickPaise, tick);
    SpreadInTicks(step.spreadTicks, c.tickPaise, tick, bid, ask);
    assert raw.bids[0].pricePaise == bid && raw.asks[0].pricePaise == ask;
  }

  lemma SpreadPaise(ticks: int, tickPaise: int)
    requires 1 <= ticks && 0 < tickPaise
    ensures 0 < ticks * tickPaise
  {
  }

  lemma SpreadInTicks(ticks: int, tickPaise: int, tick: real, bid: int, ask: int)
    requires 0 < tickPaise && tick == Rupees(tickPaise) && ask == bid + ticks * tickPaise
    ensures ToTicks(Rupees(ask) - Rupees(bid), tick) == ticks as real
  {
    assert Rupees(ask) - Rupees(bid) == (2 * ticks) as real * tickPaise as real / 200.0;
    InTicks(2 * ticks, tickPaise, tick, Rupees(ask) - Rupees(bid));
  }

  /** From one event to the next the touch moves by at most seven ticks. */
  lemma {:induction false} BidMoves(c: ScenarioConfig, draws: seq<Draw>, k: nat) returns (moved: int)
    requires ValidScenario(c) && 0 < k < |draws| && ValidDraw(c, draws[k])
    ensures -7 <= moved <= 7
    ensures SourceAt(c, draws, k + 1).bestBidPaise == SourceAt(c, draws, k).bestBidPaise + moved * c.tickPaise
  {
    hide StepOf;
    BidOnGrid(c, draws, k);
    StepIsBounded(c, k, draws[k]);
    moved := FlooredMove(SourceAt(c, draws, k).bestBidPaise, c.tickPaise, StepOf(c, k, draws[k]).stepTicks);
  }

  /** Flooring a move only shortens it, by whole ticks. */
  lemma FlooredMove(bid: int, t: int, step: int) returns (moved: int)
    requires 0 < t && bid % t == 0 && t * (DEPTH_LEVELS + 1) <= bid
    ensures MaxInt(t * (DEPTH_LEVELS + 1), bid + step * t) == bid + moved * t
    ensures step <= moved <= 0 || moved == step
  {
    var floor := t * (DEPTH_LEVELS + 1);
    moved := step;
    if bid + step * t < floor {
      var q := bid / t;
      assert bid == q * t;
      moved := DEPTH_LEVELS + 1 - q;
      assert moved * t == floor - bid;
      Compare(step, moved, t);
      Compare(moved, 1, t);
    }
  }

  /** The mid moves by at most eight and a half ticks. */
  lemma {:induction false} MidMoves(c: ScenarioConfig, v: ValidationConfig, tick: real, draws: seq<Draw>, k: nat,
                                    before: RawSnapshot, raw: RawSnapshot)
    requires ValidScenario(c) && 0 < k < |draws| && ValidDraw(c, draws[k]) && ValidDraw(c, draws[k - 1])
    requires Matches(c, v, tick) && Shows(c, draws, k - 1, before) && Shows(c, draws, k, raw)
    ensures before.bids != [] && before.asks != [] && raw.bids != [] && raw.asks != []
    ensures Abs(ToTicks(Mid(raw) - Mid(before), tick)) <= 8.5
  {
    hide ToTicks, StepOf, SourceAt, Shows, Mid;
    var moved := BidMoves(c, draws, k);
    StepIsBounded(c, k - 1, draws[k - 1]);
    StepIsBounded(c, k, draws[k]);
    ShownMid(c, draws, k - 1, before);
    ShownMid(c, draws, k, raw);
    JumpInTicks(SourceAt(c, draws, k).bestBidPaise, moved, StepOf(c, k - 1, draws[k - 1]).spreadTicks,
                StepOf(c, k, draws[k]).spreadTicks, c.tickPaise, tick);
  }

  function MidOf(bid: int, spreadTicks: int, t: int): real {
    (Rupees(bid) + Rupees(bid + spreadTicks * t)) * 0.5
  }

  lemma ShownMid(c: ScenarioConfig, draws: seq<Draw>, k: nat, raw: RawSnapshot)
    requires k < |draws| && Shows(c, draws, k, raw)
    ensures raw.bids != [] && raw.asks != []
    ensures Mid(raw) == MidOf(SourceAt(c, draws, k + 1).bestBidPaise, StepOf(c, k, draws[k]).spreadTicks, c.tickPaise)
  {
    hide StepOf, SourceAt;
  }

  lemma MidDifference(bid: int, moved: int, s0: int, s1: int, t: int, halfTicks: int)
    requires halfTicks == 2 * moved + s1 - s0
    ensures MidOf(bid + moved * t, s1, t) - MidOf(bid, s0, t) == halfTicks as real * t as real / 200.0
  {
    assert halfTicks * t == 2 * (moved * t) + s1 * t - s0 * t;
    assert (halfTicks * t) as real == halfTicks as real * t as real;
  }

  lemma JumpInTicks(bid: int, moved: int, s0: int, s1: int, t: int, tick: real)
    requires 0 < t && tick == Rupees(t) && -7 <= moved <= 7 && 1 <= s0 <= 4 && 1 <= s1 <= 4
    ensures Abs(ToTicks(MidOf(bid + moved * t, s1, t) - MidOf(bid, s0, t), tick)) <= 8.5
  {
    hide ToTicks, MidOf;
    var halfTicks := 2 * moved + s1 - s0;
    MidDifference(bid, moved, s0, s1, t, halfTicks);
    InTicks(halfTicks, t, tick, MidOf(bid + moved * t, s1, t) - MidOf(bid, s0, t));
  }

  /** Every scenario, whatever is drawn, passes a matching validator from first
      to last, and no snapshot but the first opens a sequence. */
  lemma {:induction false} StreamIsAccepted(c: ScenarioConfig, v: ValidationConfig, tick: real, draws: seq<Draw>,
                                            stream: seq<RawSnapshot>, k: nat)
    requires ValidScenario(c) && |draws| == c.count == |stream|
    requires forall i :: 0 <= i < |draws| ==> ValidDraw(c, draws[i])
    requires forall i :: 0 <= i < |stream| ==> Shows(c, draws, i, stream[i])
    requires Matches(c, v, tick) && 0.0 < tick && k < |stream|
    ensures var r := VerdictAt(v, tick, stream, k);
      r.Accepted? && !r.gap && (r.snapshot.isFirst <==> k == 0)
    ensures HistoryAt(v, tick, stream, k + 1) == Some(Summary(stream[k]))
  {
    hide SoundBook, StructureFault, Discontinuous, StepOf, IsLadder;
    var raw := stream[k];
    BookIsSound(c, v, tick, draws, k, raw);
    SoundBookIsFaultFree(v, tick, raw);
    if k > 0 {
      StreamIsAccepted(c, v, tick, draws, stream, k - 1);
      NextIsContinuous(c, v, tick, draws, k, stream[k - 1], raw);
    }
  }

  lemma {:induction false} NextIsContinuous(c: ScenarioConfig, v: ValidationConfig, tick: real, draws: seq<Draw>,
                                            k: nat, before: RawSnapshot, raw: RawSnapshot)
    requires ValidScenario(c) && 0 < k < |draws| && ValidDraw(c, draws[k]) && ValidDraw(c, draws[k - 1])
    requires Matches(c, v, tick) && Shows(c, draws, k - 1, before) && Shows(c, draws, k, raw)
    ensures before.bids != [] && before.asks != [] && raw.bids != [] && raw.asks != []
    ensures TemporalFault(v, Summary(before), raw).None?
    ensures !Duplicate(Summary(before), raw) && !Discontinuous(v, tick, Summary(before), raw)
  {
    hide ToTicks, StepOf;
    MidMoves(c, v, tick, draws, k, before, raw);
    StepIsBounded(c, k, draws[k]);
    BidOnGrid(c, draws, k);
    assert (k + 1) * c.intervalMs == k * c.intervalMs + c.intervalMs;
  }

  // -- what the scenarios promise -----------------------------------------------

  /** UPWARD and DOWNWARD move exactly one tick per snapshot: the construction
      guard keeps the floor out of the way of a falling price. */
  lemma {:induction false} TrendsMoveOneTick(c: ScenarioConfig, draws: seq<Draw>, k: nat)
    requires ValidScenario(c) && c.scenario in {Upward, Downward} && 0 < k < |draws| <= c.count
    ensures SourceAt(c, draws, k + 1).bestBidPaise - SourceAt(c, draws, k).bestBidPaise
         == if c.scenario == Upward then c.tickPaise else -c.tickPaise
  {
    assert SourceAt(c, draws, k + 1) == Next(c, SourceAt(c, draws, k), draws[k]);
    hide SourceAt;
    BidOnGrid(c, draws, k);
    TrendPosition(c, draws, k);
  }

  lemma {:induction false} TrendPosition(c: ScenarioConfig, draws: seq<Draw>, k: nat)
    requires ValidScenario(c) && c.scenario in {Upward, Downward} && 0 < k <= |draws| <= c.count
    ensures c.scenario == Downward ==>
              SourceAt(c, draws, k).bestBidPaise == c.startPricePaise - (k - 1) * c.tickPaise
    ensures c.scenario == Downward && k < c.count ==>
              MinimumBid(c) <= SourceAt(c, draws, k).bestBidPaise - c.tickPaise
  {
    FloorOutOfReach(c, k);
    if k == 1 {
      assert SourceAt(c, draws, 1) == Next(c, Opening(c), draws[0]);
    } else {
      TrendPosition(c, draws, k - 1);
      BidOnGrid(c, draws, k - 1);
      assert (k - 1) * c.tickPaise == (k - 2) * c.tickPaise + c.tickPaise;
      assert SourceAt(c, draws, k) == Next(c, SourceAt(c, draws, k - 1), draws[k - 1]);
    }
  }

  lemma FloorOutOfReach(c: ScenarioConfig, k: nat)
    requires ValidScenario(c) && 0 < k <= c.count
    ensures c.scenario == Downward ==> MinimumBid(c) <= c.startPricePaise - (k - 1) * c.tickPaise
    ensures c.scenario == Downward && k < c.count ==> MinimumBid(c) <= c.startPricePaise - k * c.tickPaise
  {
    assert (k - 1) * c.tickPaise <= (c.count - 1) * c.tickPaise;
    assert k < c.count ==> k * c.tickPaise <= (c.count - 1) * c.tickPaise;
  }

  /** The start price is documented as the initial best bid. It is shown first
      exactly when it is not below the floor and the first event does not move
      it, or moves it down from the floor itself; NOISE never shows it. */
  lemma StartPriceIsFirstBid(c: ScenarioConfig, draws: seq<Draw>)
    requires ValidScenario(c) && draws != [] && ValidDraw(c, draws[0])
    ensures SourceAt(c, draws, 1).bestBidPaise == c.startPricePaise <==>
      && MinimumBid(c) <= c.startPricePaise
      && c.scenario != Noise
      && (c.scenario == Random ==>
            draws[0].step == 0 || (draws[0].step < 0 && c.startPricePaise == MinimumBid(c)))
  {
    assert SourceAt(c, draws, 1) == Next(c, Opening(c), draws[0]);
    var step := StepOf(c, 0, draws[0]).stepTicks;
    if step > 0 {
      assert step * c.tickPaise > 0;
    } else if step < 0 {
      assert step * c.tickPaise < 0;
    }
  }

  /** Moves of the NOISE cycle up to and including phase m. */
  function NoiseDrift(m: nat): int
    requires m <= |NOISE_STEPS|
  {
    if m == 0 then 0 else NoiseDrift(m - 1) + NOISE_STEPS[m - 1]
  }

  /** The drift never falls further than three ticks below its start. */
  lemma DriftIsShallow(m: nat)
    requires 0 < m <= |NOISE_STEPS|
    ensures -3 <= NoiseDrift(m) == NoiseDrift(m - 1) + NOISE_STEPS[m - 1]
  {
    assert NoiseDrift(1) == 4 && NoiseDrift(2) == -3 && NoiseDrift(3) == 3 && NoiseDrift(4) == -2;
    assert NoiseDrift(5) == 5 && NoiseDrift(6) == -1 && NoiseDrift(7) == 2 && NoiseDrift(8) == 0;
  }

  lemma NoiseMove(c: ScenarioConfig, s: Source, d: Draw, m: nat, start: int)
    requires ValidScenario(c) && c.scenario == Noise && 0 < m <= |NOISE_STEPS| && s.emitted % |NOISE_STEPS| == m - 1
    requires s.bestBidPaise == start + NoiseDrift(m - 1) * c.tickPaise
    requires MinimumBid(c) + 3 * c.tickPaise <= start
    ensures NextBid(c, s, d) == start + NoiseDrift(m) * c.tickPaise
  {
    hide NoiseDrift;
    DriftIsShallow(m);
    WholeTicks(c.tickPaise, NoiseDrift(m - 1), NOISE_STEPS[m - 1]);
    assert StepOf(c, s.emitted, d).stepTicks == NOISE_STEPS[m - 1];
  }

  lemma WholeTicks(t: int, a: int, b: int)
    requires 0 < t && -3 <= a + b
    ensures (a + b) * t == a * t + b * t && -3 * t <= (a + b) * t
  {
  }

  lemma {:induction false} NoiseCycle(c: ScenarioConfig, draws: seq<Draw>, k: nat, m: nat)
    requires ValidScenario(c) && c.scenario == Noise && m <= |NOISE_STEPS| && k + m <= |draws| && k % |NOISE_STEPS| == 0
    requires MinimumBid(c) + 3 * c.tickPaise <= SourceAt(c, draws, k).bestBidPaise
    ensures SourceAt(c, draws, k + m).bestBidPaise == SourceAt(c, draws, k).bestBidPaise + NoiseDrift(m) * c.tickPaise
  {
    hide NextBid, MinimumBid, ValidScenario;
    if m > 0 {
      NoiseCycle(c, draws, k, m - 1);
      BidOnGrid(c, draws, k + m - 1);
      InCycle(k, m - 1);
      NoiseMove(c, SourceAt(c, draws, k + m - 1), draws[k + m - 1], m, SourceAt(c, draws, k).bestBidPaise);
    }
  }

  lemma InCycle(k: nat, m: nat)
    requires k % 8 == 0 && m < 8
    ensures (k + m) % 8 == m
  {
  }

  /** NOISE is directionless: away from the floor every cycle of eight events
      ends where it began. */
  lemma {:induction false} NoiseReturns(c: ScenarioConfig, draws: seq<Draw>, k: nat)
    requires ValidScenario(c) && c.scenario == Noise && k + 8 <= |draws| && k % 8 == 0
    requires MinimumBid(c) + 3 * c.tickPaise <= SourceAt(c, draws, k).bestBidPaise
    ensures SourceAt(c, draws, k + 8).bestBidPaise == SourceAt(c, draws, k).bestBidPaise
  {
    NoiseCycle(c, draws, k, 8);
    assert NoiseDrift(8) == 0;
  }

  /** A directional scenario shows its direction in the sizes: at every level the
      favoured side holds at least as much as the other. */
  lemma TrendsFavourTheirSide(c: ScenarioConfig, draws: seq<Draw>, n: nat, raw: RawSnapshot, k: nat)
    requires ValidScenario(c) && c.scenario in {Upward, Downward} && n < |draws| && Shows(c, draws, n, raw)
    requires k < DEPTH_LEVELS
    ensures c.scenario == Upward ==> raw.asks[k].quantity <= raw.bids[k].quantity
    ensures c.scenario == Downward ==> raw.bids[k].quantity <= raw.asks[k].quantity
  {
    hide SizeAt;
    var pressure := StepOf(c, n, draws[n]).pressure;
    if c.scenario == Upward {
      SizeGrows(c, -pressure, pressure, k);
    } else {
      SizeGrows(c, pressure, -pressure, k);
    }
  }

  lemma SizeGrows(c: ScenarioConfig, low: real, high: real, k: nat)
    requires ValidScenario(c) && low <= high && k < DEPTH_LEVELS
    ensures SizeAt(c, low, 1.0, k) <= SizeAt(c, high, 1.0, k)
  {
    var depth := Product(c.baseQuantity as real, DEPTH_PROFILE[k]);
    MulMonotone(DEPTH_PROFILE[k], 0.0, c.baseQuantity as real);
    assert depth >= 0.0;
    var small, large := MaxReal(MIN_SIDE_SCALE, 1.0 + low), MaxReal(MIN_SIDE_SCALE, 1.0 + high);
    assert Product(small, 1.0) == small && Product(large, 1.0) == large;
    MulMonotone(depth, small, large);
    RoundMonotone(Product(depth, small), Product(depth, large));
  }

  /** Under clear pressure either way the touch shows it strictly, whatever the
      base size, and whatever the variation of the sizes within its range. */
  lemma PressureShows(c: ScenarioConfig, pressure: real, ahead: real, behind: real)
    requires ValidScenario(c) && 0.78 <= pressure <= 0.90 && 0.92 <= ahead <= 1.08 && 0.92 <= behind <= 1.08
    ensures SizeAt(c, -pressure, behind, 0) < SizeAt(c, pressure, ahead, 0)
  {
    var base := c.baseQuantity as real;
    var large, small := Product(1.0 + pressure, ahead), Product(MaxReal(MIN_SIDE_SCALE, 1.0 - pressure), behind);
    ScalesApart(pressure, ahead, behind);
    assert Product(base, DEPTH_PROFILE[0]) == base;
    assert 1.0 - pressure == 1.0 + -pressure;
    ProductGrows(base, 1.6, large);
    ProductGrows(base, small, 0.25);
    FarApart(c.baseQuantity);
    hide Product, Round;
    RoundMonotone(Product(base, 1.6), Product(base, large));
    RoundMonotone(Product(base, small), Product(base, 0.25));
  }

  lemma ProductGrows(s: real, a: real, b: real)
    requires 0.0 <= s && a <= b
    ensures Product(s, a) <= Product(s, b)
  {
    MulMonotone(s, a, b);
  }

  lemma ScalesApart(pressure: real, ahead: real, behind: real)
    requires 0.78 <= pressure <= 0.90 && 0.92 <= ahead <= 1.08 && 0.92 <= behind <= 1.08
    ensures 1.6 <= Product(1.0 + pressure, ahead)
    ensures Product(MaxReal(MIN_SIDE_SCALE, 1.0 - pressure), behind) <= 0.25
  {
    var low := MaxReal(MIN_SIDE_SCALE, 1.0 - pressure);
    MulMonotone(1.0 + pressure, 0.92, ahead);
    MulMonotone(0.92, 1.78, 1.0 + pressure);
    MulMonotone(low, behind, 1.08);
    assert low <= 0.22 && low * behind <= low * 1.08 <= 0.25;
    assert Product(low, behind) == low * behind;
  }

  /** Sizes are what base size, depth, pressure and variation make of them, to half
      a share and never nothing, with an order for every 150 shares at the touch and
      25 more per level. */
  lemma SizesAreAsConfigured(c: ScenarioConfig, side: Side, touch: int, pressure: real, variation: seq<real>,
                             levels: seq<DepthLevel>, k: nat)
    requires IsLadder(c, side, touch, pressure, variation, levels) && k < DEPTH_LEVELS
    ensures var profile := [1.00, 0.82, 0.67, 0.55, 0.45];
      var varied := if c.scenario == Noise || c.scenario == Random then variation[k] else 1.0;
      var swollen := if pressure < -0.88 then 0.12 else 1.0 + pressure;
      var size := Product(Product(c.baseQuantity as real, profile[k]), Product(swollen, varied));
      var (l, lot) := (levels[k], 150.0 + 25.0 * k as real);
      && 1 <= l.quantity && (l.quantity == 1 || Abs(size - l.quantity as real) <= 0.5)
      && 1 <= l.orders && (l.orders == 1 || Abs(l.quantity as real / lot - l.orders as real) <= 0.5)
  {
    assert IsLevel(c, side, touch, pressure, variation, k, levels[k]);
    hide IsLadder, Product;
  }

  lemma FarApart(n: int)
    requires 0 < n
    ensures Round(Product(n as real, 0.25)) < Round(Product(n as real, 1.6)) && 1 < Round(Product(n as real, 1.6))
  {
  }

  /** Every event of a directional scenario, in full: one tick of spread, the trade
      size on top of the volume each time, the last trade at the touch that is
      being lifted or hit, and strictly more size behind the move than ahead. */
  lemma {:induction false} TrendIsShown(c: ScenarioConfig, draws: seq<Draw>, n: nat, raw: RawSnapshot)
    requires ValidScenario(c) && c.scenario in {Upward, Downward} && n < |draws| && Shows(c, draws, n, raw)
    ensures raw.bids != [] && raw.asks != []
    ensures var bid, ask := raw.bids[0], raw.asks[0];
      && ask.pricePaise == bid.pricePaise + c.tickPaise
      && raw.volumeTradedToday == c.initialVolume + (n + 1) * c.tradeSize
      && (if c.scenario == Upward then raw.lastTradedPrice == ask.price && ask.quantity < bid.quantity
          else raw.lastTradedPrice == bid.price && bid.quantity < ask.quantity)
  {
    TrendVolume(c, draws, n + 1);
    hide SizeAt, SourceAt, Rupees;
    PressureShows(c, 0.78, 1.0, 1.0);
    var step := StepOf(c, n, draws[n]);
    assert IsLevel(c, Bid, raw.bids[0].pricePaise, step.pressure, draws[n].bidVariation, 0, raw.bids[0]);
  }

  lemma {:induction false} TrendVolume(c: ScenarioConfig, draws: seq<Draw>, k: nat)
    requires c.scenario in {Upward, Downward} && k <= |draws|
    ensures SourceAt(c, draws, k).volume == c.initialVolume + k * c.tradeSize
  {
    if k > 0 {
      TrendVolume(c, draws, k - 1);
    }
  }

  /** An event of NOISE leans the way its step goes: the last trade is at the ask
      and the bid strictly larger on the way up, the other way round down. */
  lemma NoiseIsShown(c: ScenarioConfig, draws: seq<Draw>, n: nat, raw: RawSnapshot)
    requires ValidScenario(c) && c.scenario == Noise && n < |draws| && Shows(c, draws, n, raw)
    requires forall v :: v in draws[n].bidVariation + draws[n].askVariation ==> 0.92 <= v <= 1.08
    ensures raw.bids != [] && raw.asks != []
    ensures var bid, ask := raw.bids[0], raw.asks[0];
      && ask.pricePaise == bid.pricePaise + NOISE_SPREADS[n % 8] * c.tickPaise
      && raw.volumeTradedToday == SourceAt(c, draws, n).volume + c.tradeSize + 17 * (n % 5)
      && (if NOISE_STEPS[n % 8] > 0 then raw.lastTradedPrice == ask.price && ask.quantity < bid.quantity
          else raw.lastTradedPrice == bid.price && bid.quantity < ask.quantity)
  {
    var up, down := draws[n].bidVariation, draws[n].askVariation;
    assert |up| == |down| == DEPTH_LEVELS;
    assert up[0] in up + down && down[0] in up + down;
    EmittedIs(c, draws, n);
    assert SourceAt(c, draws, n + 1) == Next(c, SourceAt(c, draws, n), draws[n]);
    hide SizeAt, SourceAt, Rupees;
    PressureShows(c, 0.88, up[0], down[0]);
    PressureShows(c, 0.88, down[0], up[0]);
  }

  /** Every event of RANDOM, from its draws: spread, traded volume, and the pressure
      that both ladders are sized by and that decides where the last trade was: a
      fifth of the step, roughly, plus noise, within limits. */
  lemma RandomIsShown(c: ScenarioConfig, draws: seq<Draw>, n: nat, raw: RawSnapshot)
    requires ValidScenario(c) && c.scenario == Random && n < |draws| && Shows(c, draws, n, raw)
    ensures raw.bids != [] && raw.asks != []
    ensures var (d, bid, ask) := (draws[n], raw.bids[0], raw.asks[0]);
      var spread := if d.spreadChance < 0.78 then 1 else d.spread;
      && ask.pricePaise == bid.pricePaise + spread * c.tickPaise
      && raw.volumeTradedToday == SourceAt(c, draws, n).volume + d.traded
      && raw.lastTradedPrice == (if 0.0 <= Pressure(d) then ask.price else bid.price)
    ensures IsLadder(c, Bid, raw.bids[0].pricePaise, Pressure(draws[n]), draws[n].bidVariation, raw.bids)
    ensures IsLadder(c, Ask, raw.asks[0].pricePaise, -Pressure(draws[n]), draws[n].askVariation, raw.asks)
  {
    RandomMoves(c, draws, n);
    TouchesShown(c, draws, n, raw);
    hide Shows, IsLadder, SourceAt, MinimumBid, StepOf;
  }

  /** Both ladders, the last trade and the volume, from the step of the event. */
  lemma TouchesShown(c: ScenarioConfig, draws: seq<Draw>, n: nat, raw: RawSnapshot)
    requires n < |draws| && Shows(c, draws, n, raw)
    ensures raw.bids != [] && raw.asks != []
    ensures var (step, bid, ask) := (StepOf(c, n, draws[n]), raw.bids[0], raw.asks[0]);
      && ask.pricePaise == bid.pricePaise + step.spreadTicks * c.tickPaise
      && raw.volumeTradedToday == SourceAt(c, draws, n + 1).volume
      && raw.lastTradedPrice == (if 0.0 <= step.pressure then ask.price else bid.price)
      && IsLadder(c, Bid, bid.pricePaise, step.pressure, draws[n].bidVariation, raw.bids)
      && IsLadder(c, Ask, ask.pricePaise, -step.pressure, draws[n].askVariation, raw.asks)
  {
    hide SizeAt, SourceAt, Rupees, StepOf, OrdersAt;
  }

  function Pressure(d: Draw): real {
    var p := 0.22 * d.step as real + d.pressureNoise;
    if p < -0.9 then -0.9 else if 0.9 < p then 0.9 else p
  }

  /** The touch moves by the step drawn, off the floor. */
  lemma RandomMoves(c: ScenarioConfig, draws: seq<Draw>, n: nat)
    requires c.scenario == Random && n < |draws|
    ensures var (before, after, d) := (SourceAt(c, draws, n), SourceAt(c, draws, n + 1), draws[n]);
      && after.volume == before.volume + d.traded
      && after.bestBidPaise == MaxInt(MinimumBid(c), before.bestBidPaise + d.step * c.tickPaise)
    ensures var d := draws[n];
      StepOf(c, n, d) == MarketStep(d.step, Pressure(d), if d.spreadChance < 0.78 then 1 else d.spread, d.traded)
  {
    EmittedIs(c, draws, n);
    assert SourceAt(c, draws, n + 1) == Next(c, SourceAt(c, draws, n), draws[n]);
  }

  lemma {:induction false} EmittedIs(c: ScenarioConfig, draws: seq<Draw>, k: nat)
    requires k <= |draws|
    ensures SourceAt(c, draws, k).emitted == k
  {
    if k > 0 {
      EmittedIs(c, draws, k - 1);
    }
  }
}
