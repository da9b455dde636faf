/** The market-data records (snapshot_quant_v4/utils/types.py), without the
    fields no decision reads. */
module MarketRecords {
  import opened Prelude

  datatype Side = Bid | Ask

  datatype DepthLevel = DepthLevel(pricePaise: int, price: real, quantity: int, orders: int)

  /** A parsed but unvalidated message. */
  datatype RawSnapshot = RawSnapshot(
    exchangeTimestampMs: int,
    sequenceNumber: int,
    lastTradedPrice: real,
    volumeTradedToday: int,
    bids: seq<DepthLevel>,
    asks: seq<DepthLevel>)

  /** A validated message with its derived quantities. */
  datatype Snapshot = Snapshot(
    raw: RawSnapshot,
    tickSize: real,
    dtMs: real,
    isFirst: bool,
    deltaVolume: int,
    bestBid: DepthLevel,
    bestAsk: DepthLevel,
    mid: real,
    spread: real,
    spreadTicks: real)
  {
    function Levels(side: Side): seq<DepthLevel> {
      if side == Bid then raw.bids else raw.asks
    }

    function Touch(side: Side): DepthLevel {
      if side == Bid then bestBid else bestAsk
    }
  }

  /** Strictly away from the touch: bids descend, asks ascend. */
  predicate Sorted(side: Side, levels: seq<DepthLevel>) {
    forall i, j :: 0 <= i < j < |levels| ==> Away(side, levels[i].pricePaise, levels[j].pricePaise)
  }

  predicate Away(side: Side, near: int, far: int) {
    if side == Bid then far < near else near < far
  }

  /** The level resting at an exact price. Prices of a sorted ladder are
      distinct, so there is at most one. */
  function LevelAt(levels: seq<DepthLevel>, pricePaise: int): (r: Option<DepthLevel>)
    ensures r.Some? ==> r.value in levels && r.value.pricePaise == pricePaise
    ensures r.None? ==> forall l :: l in levels ==> l.pricePaise != pricePaise
  {
    if levels == [] then None
    else if levels[0].pricePaise == pricePaise then Some(levels[0])
    else LevelAt(levels[1..], pricePaise)
  }
}
