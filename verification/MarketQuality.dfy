/** The market-quality gate (snapshot_quant_v4/engine/quality.py): which reasons
    forbid a new signal, and how many ladder levels are usable. */
module MarketQuality {
  import opened Prelude
  import opened MarketRecords

  datatype BlockReason =
    | WarmingUp
    | SpreadTooWide
    | BookTooThin
    | LiquidityBelowThreshold
    | FeedGap
    | PriceGap
    | LowConfidence
    | SessionClosed
    | InsufficientDepthLevels

  datatype QualityConfig = QualityConfig(
    maxSignalSpreadTicks: real,
    minDepthLevels: int,
    minTopQuantity: int,
    minRelativeDepth: real,
    minOrdersPerLevel: int,
    gapBlockMs: real)

  /** What the gate looks at in one snapshot and in the shared statistics. */
  datatype MarketView = MarketView(
    snapshots: nat,
    warmupSnapshots: nat,
    spreadTicks: real,
    bids: seq<DepthLevel>,
    asks: seq<DepthLevel>,
    relativeDepth: real,
    depthReferenceReady: bool,
    msSinceGap: Option<real>)
  {
    predicate Warm() {
      snapshots >= warmupSnapshots
    }
  }

  /** The range checks of snapshot_quant_v4/config.py:242-251. */
  predicate ValidQuality(c: QualityConfig) {
    && 0.0 < c.maxSignalSpreadTicks
    && 1 <= c.minDepthLevels <= 5
    && 0 <= c.minTopQuantity
    && 0.0 <= c.minRelativeDepth <= 1.0
    && 0 <= c.minOrdersPerLevel
    && 0.0 <= c.gapBlockMs
  }

  predicate Usable(c: QualityConfig, level: DepthLevel) {
    level.quantity > 0 && level.pricePaise > 0 && level.orders >= c.minOrdersPerLevel
  }

  /** The ladder is only as deep as its unbroken run of usable levels. */
  ghost predicate IsUsableDepth(c: QualityConfig, levels: seq<DepthLevel>, n: int) {
    && 0 <= n <= |levels|
    && (forall k :: 0 <= k < n ==> Usable(c, levels[k]))
    && (n < |levels| ==> !Usable(c, levels[n]))
  }

  ghost function UsableDepth(c: QualityConfig, levels: seq<DepthLevel>): (n: nat)
    ensures IsUsableDepth(c, levels, n)
  {
    if levels == [] || !Usable(c, levels[0]) then 0 else 1 + UsableDepth(c, levels[1..])
  }

  /** The deepest level reachable on both sides. */
  ghost function UsableOnBothSides(c: QualityConfig, v: MarketView): nat {
    MinInt(UsableDepth(c, v.bids), UsableDepth(c, v.asks))
  }

  method UsableLevels(c: QualityConfig, levels: seq<DepthLevel>) returns (usable: nat)
    ensures usable == UsableDepth(c, levels) && IsUsableDepth(c, levels, usable)
  {
    usable := 0;
    while usable < |levels|
      invariant usable <= |levels|
      invariant forall k :: 0 <= k < usable ==> Usable(c, levels[k])
    {
      var level := levels[usable];
      if level.quantity <= 0 || level.pricePaise <= 0 {
        break;
      }
      if level.orders < c.minOrdersPerLevel {
        break;
      }
      usable := usable + 1;
    }
    UsableDepthUnique(c, levels, usable, UsableDepth(c, levels));
  }

  /** When each reason applies. */
  ghost predicate Blocks(c: QualityConfig, v: MarketView, reason: BlockReason)
    requires v.bids != [] && v.asks != []
  {
    match reason
    case WarmingUp => !v.Warm()
    case SpreadTooWide => v.spreadTicks > c.maxSignalSpreadTicks
    case InsufficientDepthLevels => UsableOnBothSides(c, v) < c.minDepthLevels
    case BookTooThin =>
      c.minTopQuantity > 0 && (v.bids[0].quantity < c.minTopQuantity || v.asks[0].quantity < c.minTopQuantity)
    case LiquidityBelowThreshold => v.depthReferenceReady && v.relativeDepth < c.minRelativeDepth
    case FeedGap => v.msSinceGap.Some? && v.msSinceGap.value < c.gapBlockMs
    case _ => false
  }

  lemma UsableDepthUnique(c: QualityConfig, levels: seq<DepthLevel>, a: int, b: int)
    requires IsUsableDepth(c, levels, a) && IsUsableDepth(c, levels, b)
    ensures a == b
  {
  }

  /** Appends a reason that applies and is not listed yet. */
  function Note(reasons: seq<BlockReason>, applies: bool, reason: BlockReason): (noted: seq<BlockReason>)
    ensures forall r :: r in noted <==> r in reasons || (applies && r == reason)
    ensures reason !in reasons && NoDuplicates(reasons) ==> NoDuplicates(noted)
  {
    if applies then reasons + [reason] else reasons
  }

  ghost predicate NoDuplicates(reasons: seq<BlockReason>) {
    forall i, j :: 0 <= i < j < |reasons| ==> reasons[i] != reasons[j]
  }

  /** The applicable reasons in the order they are looked for. */
  ghost function BlockReasons(c: QualityConfig, v: MarketView): seq<BlockReason>
    requires v.bids != [] && v.asks != []
  {
    hide Note, UsableOnBothSides;
    var noted := Note([], !v.Warm(), WarmingUp);
    var noted := Note(noted, v.spreadTicks > c.maxSignalSpreadTicks, SpreadTooWide);
    var noted := Note(noted, UsableOnBothSides(c, v) < c.minDepthLevels, InsufficientDepthLevels);
    var topQuantity := MinInt(v.bids[0].quantity, v.asks[0].quantity);
    var noted := Note(noted, c.minTopQuantity > 0 && topQuantity < c.minTopQuantity, BookTooThin);
    var noted := Note(noted, v.depthReferenceReady && v.relativeDepth < c.minRelativeDepth, LiquidityBelowThreshold);
    Note(noted, v.msSinceGap.Some? && v.msSinceGap.value < c.gapBlockMs, FeedGap)
  }

  lemma BlockReasonsExactly(c: QualityConfig, v: MarketView)
    requires v.bids != [] && v.asks != []
    ensures forall r :: r in BlockReasons(c, v) <==> Blocks(c, v, r)
    ensures NoDuplicates(BlockReasons(c, v))
  {
    hide Note, UsableOnBothSides;
  }

  /** What an open gate says of the market, and what opens it: it is warm, the
      spread is narrow, the first levels of both ladders have size, a price and
      orders enough, the touch has size enough, the depth is not far below its norm
      and the latest gap is long enough ago. */
  lemma TradableExactlyWhen(c: QualityConfig, v: MarketView)
    requires ValidQuality(c) && v.bids != [] && v.asks != []
    ensures (forall r :: !Blocks(c, v, r)) <==>
      && v.warmupSnapshots <= v.snapshots && v.spreadTicks <= c.maxSignalSpreadTicks
      && c.minDepthLevels <= |v.bids| && c.minDepthLevels <= |v.asks|
      && (forall k :: 0 <= k < c.minDepthLevels ==>
            && 0 < v.bids[k].quantity && 0 < v.bids[k].pricePaise && c.minOrdersPerLevel <= v.bids[k].orders
            && 0 < v.asks[k].quantity && 0 < v.asks[k].pricePaise && c.minOrdersPerLevel <= v.asks[k].orders)
      && (0 < c.minTopQuantity ==> c.minTopQuantity <= v.bids[0].quantity && c.minTopQuantity <= v.asks[0].quantity)
      && (v.depthReferenceReady ==> c.minRelativeDepth <= v.relativeDepth)
      && (v.msSinceGap.Some? ==> c.gapBlockMs <= v.msSinceGap.value)
  {
    var deep := UsableOnBothSides(c, v) >= c.minDepthLevels;
    DepthReached(c, v.bids, c.minDepthLevels);
    DepthReached(c, v.asks, c.minDepthLevels);
    hide UsableOnBothSides, UsableDepth;
    assert !Blocks(c, v, WarmingUp) <==> v.warmupSnapshots <= v.snapshots;
    assert !Blocks(c, v, SpreadTooWide) <==> v.spreadTicks <= c.maxSignalSpreadTicks;
    assert !Blocks(c, v, InsufficientDepthLevels) <==> deep;
    assert !Blocks(c, v, BookTooThin) <==>
      (0 < c.minTopQuantity ==> c.minTopQuantity <= v.bids[0].quantity && c.minTopQuantity <= v.asks[0].quantity);
    assert !Blocks(c, v, LiquidityBelowThreshold) <==>
      (v.depthReferenceReady ==> c.minRelativeDepth <= v.relativeDepth);
    assert !Blocks(c, v, FeedGap) <==> (v.msSinceGap.Some? ==> c.gapBlockMs <= v.msSinceGap.value);
  }

  lemma DepthReached(c: QualityConfig, levels: seq<DepthLevel>, n: int)
    requires 0 <= n
    ensures n <= UsableDepth(c, levels) <==>
      && n <= |levels|
      && forall k :: 0 <= k < n ==>
           0 < levels[k].quantity && 0 < levels[k].pricePaise && c.minOrdersPerLevel <= levels[k].orders
  {
    assert IsUsableDepth(c, levels, UsableDepth(c, levels));
    hide UsableDepth;
  }

  // -- how good the book is -------------------------------------------------------

  /** The place of a value on the way from low to high. */
  predicate Scaled(r: real, value: real, low: real, high: real) {
    && (value <= low ==> r == 0.0) && (high <= value ==> r == 1.0)
    && (low < value < high ==> Product(r, high - low) == value - low)
  }

  /** [low, high] onto [0, 1]; None is the ValueError of an empty interval. */
  function LinearScale(value: real, low: real, high: real): (r: Option<real>)
    ensures r.None? <==> high <= low
    ensures r.Some? ==> 0.0 <= r.value <= 1.0
    ensures r.Some? ==> (r.value == 0.0 <==> value <= low) && (r.value == 1.0 <==> high <= value)
    ensures r.Some? ==> Scaled(r.value, value, low, high)
  {
    if high <= low then None
    else
      FractionOf(value - low, high - low);
      Some(Clamp((value - low) / (high - low), 0.0, 1.0))
  }

  lemma FractionOf(x: real, span: real)
    requires 0.0 < span
    ensures x / span <= 0.0 <==> x <= 0.0
    ensures x / span >= 1.0 <==> x >= span
    ensures Product(x / span, span) == x
  {
    assert x / span * span == x;
  }

  function Fraction(part: nat, whole: nat): (r: real)
    requires 0 < whole
    ensures 0.0 <= r <= 1.0 && (r == 0.0 <==> part == 0) && (r == 1.0 <==> whole <= part)
    ensures Scaled(r, part as real, 0.0, whole as real)
  {
    FractionOf(part as real, whole as real);
    MinReal(1.0, part as real / whole as real)
  }

  /** Nothing but a factor of zero makes the product zero, and only four ones
      make it one. */
  lemma UnitProduct(a: real, b: real)
    requires 0.0 <= a <= 1.0 && 0.0 <= b <= 1.0
    ensures 0.0 <= Product(a, b) <= 1.0
    ensures Product(a, b) == 0.0 <==> a == 0.0 || b == 0.0
    ensures Product(a, b) == 1.0 <==> a == 1.0 && b == 1.0
  {
    MulMonotone(a, b, 1.0);
    if a > 0.0 && b > 0.0 {
      assert a * b > 0.0;
    }
    if b < 1.0 && a > 0.0 {
      assert a * (1.0 - b) > 0.0;
    }
  }

  datatype QualityReport = QualityReport(
    tradable: bool,
    reasons: seq<BlockReason>,
    bookQuality: real,
    liquidityScore: real)

  /** What the two scores of a report say about the book. */
  ghost predicate ScoresMean(c: QualityConfig, v: MarketView, r: QualityReport) {
    && 0.0 <= r.bookQuality <= 1.0 && 0.0 <= r.liquidityScore <= 1.0
    && (r.liquidityScore == 0.0 <==> v.relativeDepth <= c.minRelativeDepth / 2.0)
    && (r.liquidityScore == 1.0 <==> 1.0 <= v.relativeDepth)
    && (r.bookQuality == 0.0 <==>
          || c.maxSignalSpreadTicks <= v.spreadTicks || UsableOnBothSides(c, v) < c.minDepthLevels
          || v.relativeDepth <= c.minRelativeDepth / 2.0 || v.snapshots == 0)
    && (r.bookQuality == 1.0 <==>
          v.spreadTicks <= 1.0 && 5 <= UsableOnBothSides(c, v) && 1.0 <= v.relativeDepth && v.Warm())
    && Scaled(r.liquidityScore, v.relativeDepth, c.minRelativeDepth / 2.0, 1.0)
    && IsQuality(c, v, r.liquidityScore, r.bookQuality)
  }

  /** Book quality is the product of four places: of the spread between the widest
      signal spread and one tick, of the usable levels between those required and
      five, of the liquidity, and of the snapshots in the warmup. */
  ghost predicate IsQuality(c: QualityConfig, v: MarketView, liquidity: real, quality: real) {
    exists spread, depth, warmth ::
      && Scaled(spread, -v.spreadTicks, -c.maxSignalSpreadTicks, -1.0)
      && Scaled(depth, UsableOnBothSides(c, v) as real, c.minDepthLevels as real - 1.0, 5.0)
      && Scaled(warmth, v.snapshots as real, 0.0, v.warmupSnapshots as real)
      && quality == Product(Product(Product(spread, depth), liquidity), warmth)
  }

  /** Exactly the applicable reasons are reported, each once; the market is
      tradable when there is none; the scores are zero and one for exactly the
      stated books. There is no report at all, but a ValueError, exactly when the
      configured signal spread is at most one tick, which the range checks allow. */
  method Evaluate(c: QualityConfig, v: MarketView) returns (r: Option<QualityReport>)
    requires ValidQuality(c) && v.bids != [] && v.asks != [] && 0 < v.warmupSnapshots
    ensures r.None? <==> c.maxSignalSpreadTicks <= 1.0
    ensures r.Some? ==>
      && r.value.reasons == BlockReasons(c, v) && NoDuplicates(r.value.reasons)
      && (forall x :: x in r.value.reasons <==> Blocks(c, v, x))
      && (r.value.tradable <==> forall x :: !Blocks(c, v, x))
      && r.value.tradable == (r.value.reasons == [])
      && ScoresMean(c, v, r.value)
  {
    hide Blocks, NoDuplicates, UsableOnBothSides, Product, UsableDepth;
    BlockReasonsExactly(c, v);
    var usable := UsableLevelsOfBook(c, v);
    var reasons := Listed(c, v, usable);
    assert reasons == [] || reasons[0] in reasons;
    var liquidity := LinearScale(v.relativeDepth, c.minRelativeDepth * 0.5, 1.0).value;
    var spread := LinearScale(-v.spreadTicks, -c.maxSignalSpreadTicks, -1.0);
    var depth := LinearScale(usable as real, c.minDepthLevels as real - 1.0, 5.0).value;
    if spread.None? {
      return None;
    }
    var warmth := Fraction(v.snapshots, v.warmupSnapshots);
    UnitProduct(spread.value, depth);
    UnitProduct(Product(spread.value, depth), liquidity);
    UnitProduct(Product(Product(spread.value, depth), liquidity), warmth);
    var quality := Product(Product(Product(spread.value, depth), liquidity), warmth);
    r := Some(QualityReport(reasons == [], reasons, Clamp(quality, 0.0, 1.0), liquidity));
    assert IsQuality(c, v, liquidity, quality);
  }

  method UsableLevelsOfBook(c: QualityConfig, v: MarketView) returns (usable: nat)
    ensures usable == UsableOnBothSides(c, v)
  {
    var bidLevels := UsableLevels(c, v.bids);
    var askLevels := UsableLevels(c, v.asks);
    usable := MinInt(bidLevels, askLevels);
  }

  method Listed(c: QualityConfig, v: MarketView, usable: nat) returns (reasons: seq<BlockReason>)
    requires v.bids != [] && v.asks != [] && usable == UsableOnBothSides(c, v)
    ensures reasons == BlockReasons(c, v)
  {
    hide Note, UsableOnBothSides;
    reasons := Note([], !v.Warm(), WarmingUp);
    reasons := Note(reasons, v.spreadTicks > c.maxSignalSpreadTicks, SpreadTooWide);
    reasons := Note(reasons, usable < c.minDepthLevels, InsufficientDepthLevels);

    var topQuantity := MinInt(v.bids[0].quantity, v.asks[0].quantity);
    reasons := Note(reasons, c.minTopQuantity > 0 && topQuantity < c.minTopQuantity, BookTooThin);
    reasons := Note(reasons, v.depthReferenceReady && v.relativeDepth < c.minRelativeDepth, LiquidityBelowThreshold);
    reasons := Note(reasons, v.msSinceGap.Some? && v.msSinceGap.value < c.gapBlockMs, FeedGap);
  }
}
