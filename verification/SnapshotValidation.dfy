/** Structural and temporal validation of raw snapshots
    (snapshot_quant_v4/engine/validator.py). */
module SnapshotValidation {
  import opened Prelude
  import opened Rounding
  import opened MarketRecords

  datatype RejectReason =
    | MissingL1
    | MalformedPayload
    | ZeroBid
    | ZeroAsk
    | NegativeQuantity
    | NegativeOrders
    | InvalidPrice
    | UnsortedDepth
    | TickMisaligned
    | CrossedBook
    | LockedBook
    | InvalidLtp
    | SpreadTooWide
    | NonMonotonicTimestamp
    | StaleTimestamp
    | VolumeRegression
    | DuplicateSnapshot

  datatype ValidationConfig = ValidationConfig(
    maxSpreadTicks: real,
    maxSnapshotGapMs: real,
    maxStalenessMs: real,
    maxPriceGapTicks: real,
    minPrice: real,
    requireTickAlignment: bool,
    allowLockedBook: bool,
    rejectDuplicates: bool,
    requireLtp: bool)

  /** The range checks of snapshot_quant_v4/config.py:216-221. */
  predicate ValidLimits(c: ValidationConfig) {
    && 0.0 < c.maxSpreadTicks && 0.0 < c.maxSnapshotGapMs && 0.0 < c.maxStalenessMs
    && 0.0 < c.maxPriceGapTicks && 0.0 < c.minPrice
  }

  const DEPTH_LEVELS := 5

  /** The history needed to judge the next snapshot. */
  datatype Previous = Previous(
    exchangeTimestampMs: int,
    sequenceNumber: int,
    volumeTradedToday: int,
    mid: real,
    bestBidPaise: int,
    bestAskPaise: int,
    bestBidQty: int,
    bestAskQty: int,
    lastTradedPrice: real)

  datatype Verdict =
    | Rejected(reason: RejectReason, gap: bool)
    | Accepted(snapshot: Snapshot, gap: bool)

  // -- structure ----------------------------------------------------------------

  predicate SoundLevel(l: DepthLevel) {
    l.quantity >= 0 && l.orders >= 0 && (l.pricePaise > 0 || l.quantity == 0)
  }

  function LevelFault(l: DepthLevel): Option<RejectReason> {
    if l.quantity < 0 then Some(NegativeQuantity)
    else if l.orders < 0 then Some(NegativeOrders)
    else if l.pricePaise <= 0 && l.quantity > 0 then Some(InvalidPrice)
    else None
  }

  /** The first fault met going down a ladder from level k. */
  function LadderFault(side: Side, levels: seq<DepthLevel>, k: nat): Option<RejectReason>
    requires k <= |levels|
    decreases |levels| - k
  {
    if k == |levels| then None
    else if LevelFault(levels[k]).Some? then LevelFault(levels[k])
    else if k > 0 && !Away(side, levels[k - 1].pricePaise, levels[k].pricePaise) then Some(UnsortedDepth)
    else LadderFault(side, levels, k + 1)
  }

  predicate SoundLadder(side: Side, levels: seq<DepthLevel>) {
    (forall l :: l in levels ==> SoundLevel(l)) && Sorted(side, levels)
  }

  /** Neighbour by neighbour, the scan finds a fault exactly when the ladder is
      not sound and strictly sorted as a whole. */
  lemma {:induction false} FaultFree(side: Side, levels: seq<DepthLevel>)
    ensures LadderFault(side, levels, 0).None? <==> SoundLadder(side, levels)
  {
    ScanFaultFree(side, levels, 0);
    if LadderFault(side, levels, 0).None? {
      forall i, j | 0 <= i < j < |levels|
        ensures Away(side, levels[i].pricePaise, levels[j].pricePaise)
      {
        AwayChains(side, levels, i, j);
      }
    }
  }

  lemma {:induction false} ScanFaultFree(side: Side, levels: seq<DepthLevel>, k: nat)
    requires k <= |levels|
    ensures LadderFault(side, levels, k).None? <==>
      && (forall i :: k <= i < |levels| ==> SoundLevel(levels[i]))
      && (forall i :: k <= i < |levels| && 0 < i ==> Away(side, levels[i - 1].pricePaise, levels[i].pricePaise))
    decreases |levels| - k
  {
    if k < |levels| {
      ScanFaultFree(side, levels, k + 1);
    }
  }

  lemma {:induction false} AwayChains(side: Side, levels: seq<DepthLevel>, i: nat, j: nat)
    requires i < j < |levels|
    requires forall k :: 0 < k < |levels| ==> Away(side, levels[k - 1].pricePaise, levels[k].pricePaise)
    ensures Away(side, levels[i].pricePaise, levels[j].pricePaise)
  {
    if i + 1 < j {
      AwayChains(side, levels, i, j - 1);
    }
  }

  /** The first structural fault of a snapshot, in the order of the checks. */
  function StructureFault(c: ValidationConfig, tick: real, raw: RawSnapshot): Option<RejectReason>
    requires 0.0 < tick
  {
    if raw.bids == [] || raw.asks == [] then Some(MissingL1)
    else if |raw.bids| > DEPTH_LEVELS || |raw.asks| > DEPTH_LEVELS then Some(MalformedPayload)
    else
      var bid, ask := raw.bids[0], raw.asks[0];
      if bid.quantity == 0 then Some(ZeroBid)
      else if ask.quantity == 0 then Some(ZeroAsk)
      else if LadderFault(Bid, raw.bids, 0).Some? then LadderFault(Bid, raw.bids, 0)
      else if LadderFault(Ask, raw.asks, 0).Some? then LadderFault(Ask, raw.asks, 0)
      else if bid.price < c.minPrice || ask.price < c.minPrice then Some(InvalidPrice)
      else if c.requireTickAlignment && !(IsTickAligned(bid.price, tick) && IsTickAligned(ask.price, tick)) then
        Some(TickMisaligned)
      else if ask.pricePaise < bid.pricePaise then Some(CrossedBook)
      else if ask.pricePaise == bid.pricePaise && !c.allowLockedBook then Some(LockedBook)
      else if c.requireLtp && raw.lastTradedPrice <= 0.0 then Some(InvalidLtp)
      else if ToTicks(ask.price - bid.price, tick) > c.maxSpreadTicks then Some(SpreadTooWide)
      else None
  }

  /** What everything downstream may assume of a book. */
  ghost predicate SoundBook(c: ValidationConfig, tick: real, raw: RawSnapshot)
    requires 0.0 < tick
  {
    && 1 <= |raw.bids| <= DEPTH_LEVELS && 1 <= |raw.asks| <= DEPTH_LEVELS
    && SoundLadder(Bid, raw.bids) && SoundLadder(Ask, raw.asks)
    && var bid, ask := raw.bids[0], raw.asks[0];
    && 0 < bid.quantity && 0 < ask.quantity && 0 < bid.pricePaise
    && bid.pricePaise <= ask.pricePaise
    && (bid.pricePaise == ask.pricePaise ==> c.allowLockedBook)
    && c.minPrice <= bid.price && c.minPrice <= ask.price
    && (c.requireTickAlignment ==> IsTickAligned(bid.price, tick) && IsTickAligned(ask.price, tick))
    && (c.requireLtp ==> 0.0 < raw.lastTradedPrice)
    && ToTicks(ask.price - bid.price, tick) <= c.maxSpreadTicks
  }

  lemma SoundBookIsFaultFree(c: ValidationConfig, tick: real, raw: RawSnapshot)
    requires 0.0 < tick
    ensures StructureFault(c, tick, raw).None? <==> SoundBook(c, tick, raw)
  {
    hide LadderFault, SoundLadder, IsTickAligned, ToTicks;
    FaultFree(Bid, raw.bids);
    FaultFree(Ask, raw.asks);
    if raw.bids != [] && SoundLadder(Bid, raw.bids) {
      SoundTouch(Bid, raw.bids);
    }
    if raw.asks != [] && SoundLadder(Ask, raw.asks) {
      SoundTouch(Ask, raw.asks);
    }
  }

  lemma SoundTouch(side: Side, levels: seq<DepthLevel>)
    requires levels != [] && SoundLadder(side, levels)
    ensures SoundLevel(levels[0])
  {
    assert levels[0] in levels;
  }

  // -- time ---------------------------------------------------------------------

  function TemporalFault(c: ValidationConfig, p: Previous, raw: RawSnapshot): Option<RejectReason> {
    var elapsed := raw.exchangeTimestampMs - p.exchangeTimestampMs;
    if elapsed < 0 then Some(NonMonotonicTimestamp)
    else if elapsed as real > c.maxStalenessMs then Some(StaleTimestamp)
    else if raw.volumeTradedToday < p.volumeTradedToday then Some(VolumeRegression)
    else None
  }

  function Mid(raw: RawSnapshot): real
    requires raw.bids != [] && raw.asks != []
  {
    (raw.bids[0].price + raw.asks[0].price) * 0.5
  }

  /** A long silence, a jump of the mid or a sequence regression. */
  predicate Discontinuous(c: ValidationConfig, tick: real, p: Previous, raw: RawSnapshot)
    requires raw.bids != [] && raw.asks != []
  {
    || (raw.exchangeTimestampMs - p.exchangeTimestampMs) as real > c.maxSnapshotGapMs
    || Abs(ToTicks(Mid(raw) - p.mid, tick)) > c.maxPriceGapTicks
    || (raw.sequenceNumber != 0 && p.sequenceNumber != 0 && raw.sequenceNumber < p.sequenceNumber)
  }

  predicate Duplicate(p: Previous, raw: RawSnapshot)
    requires raw.bids != [] && raw.asks != []
  {
    && raw.exchangeTimestampMs <= p.exchangeTimestampMs
    && raw.bids[0].pricePaise == p.bestBidPaise && raw.asks[0].pricePaise == p.bestAskPaise
    && raw.bids[0].quantity == p.bestBidQty && raw.asks[0].quantity == p.bestAskQty
    && raw.volumeTradedToday == p.volumeTradedToday
    && raw.lastTradedPrice == p.lastTradedPrice
  }

  function Summary(raw: RawSnapshot): Previous
    requires raw.bids != [] && raw.asks != []
  {
    Previous(raw.exchangeTimestampMs, raw.sequenceNumber, raw.volumeTradedToday, Mid(raw),
             raw.bids[0].pricePaise, raw.asks[0].pricePaise, raw.bids[0].quantity, raw.asks[0].quantity,
             raw.lastTradedPrice)
  }

  /** The enriched snapshot; without a history to continue it opens a sequence. */
  function Enriched(tick: real, raw: RawSnapshot, p: Option<Previous>): Snapshot
    requires raw.bids != [] && raw.asks != []
  {
    var spread := raw.asks[0].price - raw.bids[0].price;
    Snapshot(raw, tick,
             if p.None? then 0.0 else (raw.exchangeTimestampMs - p.value.exchangeTimestampMs) as real,
             p.None?,
             if p.None? then 0 else raw.volumeTradedToday - p.value.volumeTradedToday,
             raw.bids[0], raw.asks[0], Mid(raw), spread, ToTicks(spread, tick))
  }

  function Judge(c: ValidationConfig, tick: real, p: Option<Previous>, raw: RawSnapshot): Verdict
    requires 0.0 < tick
  {
    if StructureFault(c, tick, raw).Some? then Rejected(StructureFault(c, tick, raw).value, false)
    else if p.None? then Accepted(Enriched(tick, raw, None), false)
    else if TemporalFault(c, p.value, raw).Some? then Rejected(TemporalFault(c, p.value, raw).value, true)
    else if c.rejectDuplicates && Duplicate(p.value, raw) then Rejected(DuplicateSnapshot, false)
    else
      var gap := Discontinuous(c, tick, p.value, raw);
      Accepted(Enriched(tick, raw, if gap then None else p), gap)
  }

  /** History moves on acceptance and only then. */
  function History(c: ValidationConfig, tick: real, p: Option<Previous>, raw: RawSnapshot): Option<Previous>
    requires 0.0 < tick
  {
    if Judge(c, tick, p, raw).Accepted? then Some(Summary(raw)) else p
  }

  /** When the time since the last accepted snapshot allows another one. */
  predicate Timely(c: ValidationConfig, p: Previous, raw: RawSnapshot) {
    && p.exchangeTimestampMs <= raw.exchangeTimestampMs
    && (raw.exchangeTimestampMs - p.exchangeTimestampMs) as real <= c.maxStalenessMs
    && p.volumeTradedToday <= raw.volumeTradedToday
  }

  /** A snapshot is accepted exactly when its book is sound and, if there is a
      history, it continues it in time and is no repeat. */
  lemma AcceptedExactlyWhen(c: ValidationConfig, tick: real, p: Option<Previous>, raw: RawSnapshot)
    requires 0.0 < tick
    ensures Judge(c, tick, p, raw).Accepted? <==>
      && SoundBook(c, tick, raw)
      && (p.Some? ==> Timely(c, p.value, raw) && !(c.rejectDuplicates && Duplicate(p.value, raw)))
  {
    hide SoundBook, StructureFault;
    SoundBookIsFaultFree(c, tick, raw);
  }

  /** A fault of structure, told apart from all others by the book alone. */
  ghost predicate Present(c: ValidationConfig, tick: real, raw: RawSnapshot, reason: RejectReason)
    requires 0.0 < tick
  {
    match reason
    case MissingL1 => raw.bids == [] || raw.asks == []
    case MalformedPayload => |raw.bids| > DEPTH_LEVELS || |raw.asks| > DEPTH_LEVELS
    case ZeroBid => raw.bids != [] && raw.bids[0].quantity == 0
    case ZeroAsk => raw.asks != [] && raw.asks[0].quantity == 0
    case NegativeQuantity => exists l :: l in raw.bids + raw.asks && l.quantity < 0
    case NegativeOrders => exists l :: l in raw.bids + raw.asks && l.orders < 0
    case UnsortedDepth => !Sorted(Bid, raw.bids) || !Sorted(Ask, raw.asks)
    case InvalidPrice =>
      || (exists l :: l in raw.bids + raw.asks && l.pricePaise <= 0 < l.quantity)
      || (raw.bids != [] && raw.bids[0].price < c.minPrice)
      || (raw.asks != [] && raw.asks[0].price < c.minPrice)
    case TickMisaligned =>
      && c.requireTickAlignment
      && ((raw.bids != [] && !IsTickAligned(raw.bids[0].price, tick))
          || (raw.asks != [] && !IsTickAligned(raw.asks[0].price, tick)))
    case CrossedBook => raw.bids != [] && raw.asks != [] && raw.asks[0].pricePaise < raw.bids[0].pricePaise
    case LockedBook =>
      !c.allowLockedBook && raw.bids != [] && raw.asks != [] && raw.asks[0].pricePaise == raw.bids[0].pricePaise
    case InvalidLtp => c.requireLtp && raw.lastTradedPrice <= 0.0
    case SpreadTooWide =>
      raw.bids != [] && raw.asks != [] && ToTicks(raw.asks[0].price - raw.bids[0].price, tick) > c.maxSpreadTicks
    case _ => false
  }

  /** How severe a fault is: the least of those present is the one reported. The
      faults of single levels are of one rank, whichever the scan meets first. */
  function Rank(reason: RejectReason): nat {
    match reason
    case MissingL1 => 0
    case MalformedPayload => 1
    case ZeroBid => 2
    case ZeroAsk => 3
    case NegativeQuantity | NegativeOrders | UnsortedDepth | InvalidPrice => 4
    case TickMisaligned => 5
    case CrossedBook => 6
    case LockedBook => 7
    case InvalidLtp => 8
    case SpreadTooWide => 9
    case _ => 10
  }

  /** A reported fault of structure is present and no more severe one is. */
  lemma FaultIsWorst(c: ValidationConfig, tick: real, raw: RawSnapshot)
    requires 0.0 < tick && StructureFault(c, tick, raw).Some?
    ensures var reason := StructureFault(c, tick, raw).value;
      Present(c, tick, raw, reason) && forall r | Rank(r) < Rank(reason) :: !Present(c, tick, raw, r)
  {
    hide LadderFault, IsTickAligned, ToTicks;
    if LadderFault(Bid, raw.bids, 0).Some? {
      FaultIsTrue(Bid, raw.bids, 0);
    } else if LadderFault(Ask, raw.asks, 0).Some? {
      FaultIsTrue(Ask, raw.asks, 0);
    }
    FaultFree(Bid, raw.bids);
    FaultFree(Ask, raw.asks);
  }

  /** The first fault of a ladder is a fault of one of its levels, or of their order. */
  lemma {:induction false} FaultIsTrue(side: Side, levels: seq<DepthLevel>, k: nat)
    requires k <= |levels| && LadderFault(side, levels, k).Some?
    ensures match LadderFault(side, levels, k).value
      case NegativeQuantity => exists l :: l in levels && l.quantity < 0
      case NegativeOrders => exists l :: l in levels && l.orders < 0
      case InvalidPrice => exists l :: l in levels && l.pricePaise <= 0 < l.quantity
      case UnsortedDepth => !Sorted(side, levels)
      case _ => false
    decreases |levels| - k
  {
    assert levels[k] in levels;
    if LevelFault(levels[k]).None? && !(k > 0 && !Away(side, levels[k - 1].pricePaise, levels[k].pricePaise)) {
      FaultIsTrue(side, levels, k + 1);
    }
  }

  /** Every rejection by its own condition. Exactly the three that break the
      order of time or volume announce a gap. */
  lemma RejectedExactlyWhen(c: ValidationConfig, tick: real, p: Option<Previous>, raw: RawSnapshot)
    requires 0.0 < tick
    ensures var (v, sound) := (Judge(c, tick, p, raw), SoundBook(c, tick, raw));
      var since := if p.None? then 0 else raw.exchangeTimestampMs - p.value.exchangeTimestampMs;
      var late, traded := since as real > c.maxStalenessMs,
                          if p.None? then 0 else raw.volumeTradedToday - p.value.volumeTradedToday;
      && (v == Rejected(NonMonotonicTimestamp, true) <==> sound && p.Some? && since < 0)
      && (v == Rejected(StaleTimestamp, true) <==> sound && p.Some? && 0 <= since && late)
      && (v == Rejected(VolumeRegression, true) <==> sound && p.Some? && 0 <= since && !late && traded < 0)
      && (v == Rejected(DuplicateSnapshot, false) <==>
            sound && p.Some? && 0 <= since && !late && 0 <= traded && c.rejectDuplicates && Duplicate(p.value, raw))
      && (v.Rejected? && v.gap <==> sound && p.Some? && (since < 0 || late || traded < 0))
      && (!sound <==> v.Rejected? && !v.gap && StructureFault(c, tick, raw) == Some(v.reason) && Rank(v.reason) < 10)
  {
    hide SoundBook, LadderFault, IsTickAligned, ToTicks, Duplicate, Discontinuous, Enriched;
    SoundBookIsFaultFree(c, tick, raw);
    if StructureFault(c, tick, raw).Some? {
      FaultIsWorst(c, tick, raw);
    }
  }

  /** An accepted snapshot with a history is flagged exactly for a silence, a jump
      of the mid (unless the tick is too small to divide by) or a sequence
      regression; flagged or without a history it opens
      a sequence and claims neither time nor volume, otherwise it claims all that
      passed since the last accepted one. */
  lemma FlaggedExactlyWhen(c: ValidationConfig, tick: real, last: RawSnapshot, raw: RawSnapshot)
    requires ValidLimits(c) && 0.0 < tick && last.bids != [] && last.asks != []
    requires Judge(c, tick, Some(Summary(last)), raw).Accepted?
    ensures raw.bids != [] && raw.asks != []
    ensures var v := Judge(c, tick, Some(Summary(last)), raw);
      var elapsed := raw.exchangeTimestampMs - last.exchangeTimestampMs;
      && (v.gap <==>
            || elapsed as real > c.maxSnapshotGapMs
            || (EPSILON <= tick && Abs((raw.bids[0].price + raw.asks[0].price) / 2.0
                                       - (last.bids[0].price + last.asks[0].price) / 2.0) > c.maxPriceGapTicks * tick)
            || (raw.sequenceNumber != 0 && last.sequenceNumber != 0 && raw.sequenceNumber < last.sequenceNumber))
      && v.snapshot.isFirst == v.gap
      && v.snapshot.dtMs == (if v.gap then 0.0 else elapsed as real)
      && v.snapshot.deltaVolume == (if v.gap then 0 else raw.volumeTradedToday - last.volumeTradedToday)
  {
    hide LadderFault, IsTickAligned;
    if EPSILON <= tick {
      DistanceInTicks(Mid(raw) - Mid(last), tick, c.maxPriceGapTicks);
    }
  }

  lemma DistanceInTicks(x: real, tick: real, limit: real)
    requires EPSILON <= tick
    ensures Abs(ToTicks(x, tick)) > limit <==> Abs(x) > limit * tick
  {
    var q := x / tick;
    assert q * tick == x;
    assert Abs(q) * tick == Abs(x) by {
      if q < 0.0 {
        assert (-q) * tick == -x;
      }
    }
    assert (Abs(q) - limit) * tick == Abs(x) - limit * tick;
  }

  /** Right after one snapshot, a sound one is refused as a repeat exactly when it
      agrees in time, touch prices and sizes, volume and last trade. */
  lemma RepeatsExactlyWhen(c: ValidationConfig, tick: real, last: RawSnapshot, raw: RawSnapshot)
    requires 0.0 < tick && last.bids != [] && last.asks != [] && SoundBook(c, tick, raw)
    requires Timely(c, Summary(last), raw)
    ensures Judge(c, tick, Some(Summary(last)), raw) == Rejected(DuplicateSnapshot, false) <==>
      && c.rejectDuplicates
      && raw.exchangeTimestampMs == last.exchangeTimestampMs
      && raw.bids[0].pricePaise == last.bids[0].pricePaise && raw.bids[0].quantity == last.bids[0].quantity
      && raw.asks[0].pricePaise == last.asks[0].pricePaise && raw.asks[0].quantity == last.asks[0].quantity
      && raw.volumeTradedToday == last.volumeTradedToday && raw.lastTradedPrice == last.lastTradedPrice
  {
    hide StructureFault, SoundLadder, Discontinuous, IsTickAligned, ToTicks;
    SoundBookIsFaultFree(c, tick, raw);
  }

  /** A message the validator accepts right after another, unflagged. */
  ghost predicate FollowsOn(v: ValidationConfig, tick: real, last: RawSnapshot, raw: RawSnapshot)
    requires 0.0 < tick && last.bids != [] && last.asks != []
  {
    && SoundBook(v, tick, raw)
    && Timely(v, Summary(last), raw)
    && !Duplicate(Summary(last), raw) && !Discontinuous(v, tick, Summary(last), raw)
  }

  lemma FollowerIsAccepted(v: ValidationConfig, tick: real, last: RawSnapshot, raw: RawSnapshot)
    requires 0.0 < tick && last.bids != [] && last.asks != [] && FollowsOn(v, tick, last, raw)
    ensures Judge(v, tick, Some(Summary(last)), raw) == Accepted(Enriched(tick, raw, Some(Summary(last))), false)
  {
    hide StructureFault, SoundBook;
    SoundBookIsFaultFree(v, tick, raw);
  }

  // -- the validator ------------------------------------------------------------

  class SnapshotValidator {
    const config: ValidationConfig
    const tickSize: real
    var previous: Option<Previous>
    var accepted: nat

    constructor (config: ValidationConfig, tickSize: real)
      requires 0.0 < tickSize
      ensures this.config == config && this.tickSize == tickSize
      ensures previous == None && accepted == 0
    {
      this.config, this.tickSize := config, tickSize;
      previous, accepted := None, 0;
    }

    method Reset()
      modifies this`previous
      ensures previous == None && accepted == old(accepted)
    {
      previous := None;
    }

    method Validate(raw: RawSnapshot) returns (v: Verdict)
      requires 0.0 < tickSize
      modifies this
      ensures v == Judge(config, tickSize, old(previous), raw)
      ensures previous == History(config, tickSize, old(previous), raw)
      ensures accepted == old(accepted) + if v.Accepted? then 1 else 0
    {
      var fault := StructureCheck(raw);
      if fault.Some? {
        return Rejected(fault.value, false);
      }
      if previous.None? {
        v := Accept(raw, false);
        return;
      }
      var temporal := TemporalFault(config, previous.value, raw);
      if temporal.Some? {
        return Rejected(temporal.value, true);
      }
      var gap := Discontinuous(config, tickSize, previous.value, raw);
      if config.rejectDuplicates && Duplicate(previous.value, raw) {
        return Rejected(DuplicateSnapshot, false);
      }
      v := Accept(raw, gap);
    }

    method StructureCheck(raw: RawSnapshot) returns (fault: Option<RejectReason>)
      requires 0.0 < tickSize
      ensures fault == StructureFault(config, tickSize, raw)
    {
      if raw.bids == [] || raw.asks == [] {
        return Some(MissingL1);
      }
      if |raw.bids| > DEPTH_LEVELS || |raw.asks| > DEPTH_LEVELS {
        return Some(MalformedPayload);
      }
      var bid, ask := raw.bids[0], raw.asks[0];
      if bid.quantity == 0 {
        return Some(ZeroBid);
      }
      if ask.quantity == 0 {
        return Some(ZeroAsk);
      }
      fault := ValidateLadders(raw);
      if fault.Some? {
        return;
      }
      if bid.price < config.minPrice || ask.price < config.minPrice {
        return Some(InvalidPrice);
      }
      if config.requireTickAlignment && !(IsTickAligned(bid.price, tickSize) && IsTickAligned(ask.price, tickSize)) {
        return Some(TickMisaligned);
      }
      if ask.pricePaise < bid.pricePaise {
        return Some(CrossedBook);
      }
      if ask.pricePaise == bid.pricePaise && !config.allowLockedBook {
        return Some(LockedBook);
      }
      if config.requireLtp && raw.lastTradedPrice <= 0.0 {
        return Some(InvalidLtp);
      }
      var spreadTicks := ToTicks(ask.price - bid.price, tickSize);
      if spreadTicks > config.maxSpreadTicks {
        return Some(SpreadTooWide);
      }
      return None;
    }

    method ValidateLadders(raw: RawSnapshot) returns (fault: Option<RejectReason>)
      ensures fault == if LadderFault(Bid, raw.bids, 0).Some? then LadderFault(Bid, raw.bids, 0)
                       else LadderFault(Ask, raw.asks, 0)
    {
      fault := ScanLadder(Bid, raw.bids);
      if fault.None? {
        fault := ScanLadder(Ask, raw.asks);
      }
    }

    method ScanLadder(side: Side, levels: seq<DepthLevel>) returns (fault: Option<RejectReason>)
      ensures fault == LadderFault(side, levels, 0)
    {
      var previousPaise: Option<int> := None;
      for k := 0 to |levels|
        invariant previousPaise == if k == 0 then None else Some(levels[k - 1].pricePaise)
        invariant LadderFault(side, levels, 0) == LadderFault(side, levels, k)
      {
        var level := levels[k];
        fault := LevelFault(level);
        if fault.Some? {
          return;
        }
        if previousPaise.Some? && !Away(side, previousPaise.value, level.pricePaise) {
          return Some(UnsortedDepth);
        }
        previousPaise := Some(level.pricePaise);
      }
      fault := None;
    }

    method Accept(raw: RawSnapshot, gap: bool) returns (v: Verdict)
      requires raw.bids != [] && raw.asks != []
      modifies this
      ensures v == Accepted(Enriched(tickSize, raw, if gap then None else old(previous)), gap)
      ensures previous == Some(Summary(raw)) && accepted == old(accepted) + 1
    {
      var snapshot := Enriched(tickSize, raw, if gap then None else previous);
      previous := Some(Summary(raw));
      accepted := accepted + 1;
      v := Accepted(snapshot, gap);
    }
  }

  // -- runs ---------------------------------------------------------------------

  /** The history after the first k snapshots of a run since a reset. */
  function HistoryAt(c: ValidationConfig, tick: real, raws: seq<RawSnapshot>, k: nat): Option<Previous>
    requires 0.0 < tick && k <= |raws|
  {
    if k == 0 then None else History(c, tick, HistoryAt(c, tick, raws, k - 1), raws[k - 1])
  }

  function VerdictAt(c: ValidationConfig, tick: real, raws: seq<RawSnapshot>, k: nat): Verdict
    requires 0.0 < tick && k < |raws|
  {
    Judge(c, tick, HistoryAt(c, tick, raws, k), raws[k])
  }

  /** Between resets accepted timestamps and volumes never move backwards. */
  lemma {:induction false} AcceptedInOrder(c: ValidationConfig, tick: real, raws: seq<RawSnapshot>, i: nat, j: nat)
    requires 0.0 < tick && i < j < |raws|
    requires VerdictAt(c, tick, raws, i).Accepted? && VerdictAt(c, tick, raws, j).Accepted?
    ensures raws[i].exchangeTimestampMs <= raws[j].exchangeTimestampMs
    ensures raws[i].volumeTradedToday <= raws[j].volumeTradedToday
  {
    HistoryOrdered(c, tick, raws, i, j);
    AcceptedExactlyWhen(c, tick, HistoryAt(c, tick, raws, j), raws[j]);
  }

  lemma {:induction false} HistoryOrdered(c: ValidationConfig, tick: real, raws: seq<RawSnapshot>, i: nat, j: nat)
    requires 0.0 < tick && i < j <= |raws|
    requires VerdictAt(c, tick, raws, i).Accepted?
    ensures var p := HistoryAt(c, tick, raws, j);
      && p.Some?
      && raws[i].exchangeTimestampMs <= p.value.exchangeTimestampMs
      && raws[i].volumeTradedToday <= p.value.volumeTradedToday
  {
    hide Judge;
    AcceptedExactlyWhen(c, tick, HistoryAt(c, tick, raws, j - 1), raws[j - 1]);
    if i + 1 < j {
      HistoryOrdered(c, tick, raws, i, j - 1);
    }
  }

  /** Traded volume reported by the accepted snapshots among the first k. */
  function VolumeReported(c: ValidationConfig, tick: real, raws: seq<RawSnapshot>, k: nat): int
    requires 0.0 < tick && k <= |raws|
  {
    if k == 0 then 0
    else
      var v := VerdictAt(c, tick, raws, k - 1);
      VolumeReported(c, tick, raws, k - 1) + if v.Accepted? then v.snapshot.deltaVolume else 0
  }

  /** Elapsed time reported by the accepted snapshots among the first k. */
  function TimeReported(c: ValidationConfig, tick: real, raws: seq<RawSnapshot>, k: nat): real
    requires 0.0 < tick && k <= |raws|
  {
    if k == 0 then 0.0
    else
      var v := VerdictAt(c, tick, raws, k - 1);
      TimeReported(c, tick, raws, k - 1) + if v.Accepted? then v.snapshot.dtMs else 0.0
  }

  /** No snapshot accepted among the first k was flagged as a discontinuity. */
  predicate GapFree(c: ValidationConfig, tick: real, raws: seq<RawSnapshot>, k: nat)
    requires 0.0 < tick && k <= |raws|
  {
    forall i :: 0 <= i < k && VerdictAt(c, tick, raws, i).Accepted? ==> !VerdictAt(c, tick, raws, i).gap
  }

  /** Volume increments telescope: no traded quantity is reported twice, and
      without a gap none is lost. */
  lemma {:induction false} VolumeTelescopes(c: ValidationConfig, tick: real, raws: seq<RawSnapshot>, first: nat, k: nat)
    requires 0.0 < tick && first < k <= |raws|
    requires VerdictAt(c, tick, raws, first).Accepted?
    requires forall i :: 0 <= i < first ==> VerdictAt(c, tick, raws, i).Rejected?
    ensures HistoryAt(c, tick, raws, k).Some?
    ensures 0 <= VolumeReported(c, tick, raws, k)
              <= HistoryAt(c, tick, raws, k).value.volumeTradedToday - raws[first].volumeTradedToday
    ensures GapFree(c, tick, raws, k) ==>
      VolumeReported(c, tick, raws, k)
      == HistoryAt(c, tick, raws, k).value.volumeTradedToday - raws[first].volumeTradedToday
  {
    NoHistoryBeforeAcceptance(c, tick, raws, first);
    if k > first + 1 {
      VolumeTelescopes(c, tick, raws, first, k - 1);
      AcceptedExactlyWhen(c, tick, HistoryAt(c, tick, raws, k - 1), raws[k - 1]);
    }
  }

  /** So do the intervals the time-aware averages are fed. */
  lemma {:induction false} TimeTelescopes(c: ValidationConfig, tick: real, raws: seq<RawSnapshot>, first: nat, k: nat)
    requires 0.0 < tick && first < k <= |raws|
    requires VerdictAt(c, tick, raws, first).Accepted?
    requires forall i :: 0 <= i < first ==> VerdictAt(c, tick, raws, i).Rejected?
    ensures HistoryAt(c, tick, raws, k).Some?
    ensures var last := HistoryAt(c, tick, raws, k).value.exchangeTimestampMs;
      && 0.0 <= TimeReported(c, tick, raws, k) <= (last - raws[first].exchangeTimestampMs) as real
      && (GapFree(c, tick, raws, k) ==>
          TimeReported(c, tick, raws, k) == (last - raws[first].exchangeTimestampMs) as real)
  {
    NoHistoryBeforeAcceptance(c, tick, raws, first);
    if k > first + 1 {
      TimeTelescopes(c, tick, raws, first, k - 1);
      AcceptedExactlyWhen(c, tick, HistoryAt(c, tick, raws, k - 1), raws[k - 1]);
    }
  }

  lemma {:induction false} NoHistoryBeforeAcceptance(c: ValidationConfig, tick: real, raws: seq<RawSnapshot>, k: nat)
    requires 0.0 < tick && k <= |raws|
    requires forall i :: 0 <= i < k ==> VerdictAt(c, tick, raws, i).Rejected?
    ensures HistoryAt(c, tick, raws, k).None?
    ensures VolumeReported(c, tick, raws, k) == 0 && TimeReported(c, tick, raws, k) == 0.0
  {
    hide Judge;
    if k > 0 {
      NoHistoryBeforeAcceptance(c, tick, raws, k - 1);
      assert VerdictAt(c, tick, raws, k - 1).Rejected?;
    }
  }
}
