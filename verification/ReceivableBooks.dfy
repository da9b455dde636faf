/** Concrete messages that the validator receives under its default
    configuration (snapshot_quant_v4/config.py:206-214), used to show that a
    failure can really be reached. */
module ReceivableBooks {
  import opened Prelude
  import opened MarketRecords
  import opened Rounding
  import opened SnapshotValidation

  const DEFAULTS := ValidationConfig(25.0, 3000.0, 8000.0, 40.0, 0.01, false, false, true, true)

  const TICK := 0.05

  /** One level a side, one tick of 5 paise apart. */
  function PlainBook(bidPaise: int, quantity: int, timestampMs: int, volume: int): RawSnapshot {
    RawSnapshot(timestampMs, 0, bidPaise as real / 100.0, volume,
                [DepthLevel(bidPaise, bidPaise as real / 100.0, quantity, 1)],
                [DepthLevel(bidPaise + 5, (bidPaise + 5) as real / 100.0, 100, 1)])
  }

  lemma PlainBookIsSound(bidPaise: int, quantity: int, timestampMs: int, volume: int)
    requires 0 < bidPaise && 0 < quantity
    ensures SoundBook(DEFAULTS, TICK, PlainBook(bidPaise, quantity, timestampMs, volume))
    ensures Mid(PlainBook(bidPaise, quantity, timestampMs, volume)) == bidPaise as real / 100.0 + TICK / 2.0
  {
    var raw := PlainBook(bidPaise, quantity, timestampMs, volume);
    assert raw.asks[0].price - raw.bids[0].price == TICK;
    assert ToTicks(TICK, TICK) == 1.0;
    hide IsTickAligned, ToTicks;
  }

  /** Two levels a side, one tick apart throughout, in ticks of 5 paise. */
  function TightBook(bid: int, timestampMs: int, volume: int): RawSnapshot {
    RawSnapshot(timestampMs, 0, InTicks(bid).price, volume,
                [InTicks(bid), InTicks(bid - 1)], [InTicks(bid + 1), InTicks(bid + 2)])
  }

  function InTicks(price: int): DepthLevel {
    DepthLevel(5 * price, (5 * price) as real / 100.0, 100, 1)
  }

  lemma TightBookIsSound(bid: int, timestampMs: int, volume: int)
    requires 2 <= bid
    ensures var raw := TightBook(bid, timestampMs, volume);
      SoundBook(DEFAULTS, TICK, raw) && ToTicks(raw.asks[0].price - raw.bids[0].price, TICK) == 1.0
  {
    var raw := TightBook(bid, timestampMs, volume);
    assert raw.asks[0].price - raw.bids[0].price == TICK;
    assert ToTicks(TICK, TICK) == 1.0;
    hide IsTickAligned, ToTicks;
  }
}
