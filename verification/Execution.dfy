/** Fill prices, positions and costs (snapshot_quant_v4/engine/execution.py). */
module Execution {
  import opened Prelude
  import opened Rounding
  import opened MarketRecords
  import opened TradingMachine
  import opened TradingRuns
  import opened SnapshotValidation
  import opened ReceivableBooks
  import opened MarketQuality

  datatype CostConfig = CostConfig(
    enabled: bool,
    brokerageRate: real,
    brokerageFlatPerOrder: real,
    brokerageCapPerOrder: real,
    exchangeTxnRate: real,
    sebiRate: real,
    sttSellRate: real,
    stampDutyBuyRate: real,
    gstRate: real)

  datatype ExecutionConfig = ExecutionConfig(
    entryAggressionTicks: Option<real>,
    entryAggressionBps: real,
    exitSlippageTicks: Option<real>,
    exitSlippageBps: real,
    useDepthWalk: bool,
    stopTicks: real,
    targetTicks: real,
    cost: CostConfig)

  predicate ValidCosts(c: CostConfig) {
    && 0.0 <= c.brokerageRate && 0.0 <= c.exchangeTxnRate && 0.0 <= c.sebiRate
    && 0.0 <= c.sttSellRate && 0.0 <= c.stampDutyBuyRate && 0.0 <= c.gstRate
  }

  predicate ValidConfig(c: ExecutionConfig) {
    && (c.entryAggressionTicks.Some? ==> 0.0 <= c.entryAggressionTicks.value)
    && 0.0 <= c.entryAggressionBps
    && (c.exitSlippageTicks.Some? ==> 0.0 <= c.exitSlippageTicks.value)
    && 0.0 <= c.exitSlippageBps
    && 0.0 < c.stopTicks && 0.0 < c.targetTicks
    && ValidCosts(c.cost)
  }

  // -- the ladder walk ------------------------------------------------------------

  /** What a fill costs the taker: buying pays the ask, selling gives up the bid. */
  function Paid(side: Side, price: real): real {
    if side == Ask then price else -price
  }

  /** Best price first. */
  predicate PricesSorted(side: Side, levels: seq<DepthLevel>) {
    forall i, j :: 0 <= i < j < |levels| ==> Paid(side, levels[i].price) <= Paid(side, levels[j].price)
  }

  /** Size up to the first empty level. */
  function Visible(levels: seq<DepthLevel>): nat {
    if levels == [] || levels[0].quantity <= 0 then 0 else levels[0].quantity + Visible(levels[1..])
  }

  /** n shares at one price. */
  function Value(n: int, price: real): real {
    n as real * price
  }

  lemma ValueAdds(m: int, n: int, price: real)
    ensures Value(m + n, price) == Value(m, price) + Value(n, price)
    ensures Value(0, price) == 0.0
  {
  }

  lemma ValueGrows(n: int, p: real, q: real)
    requires 0 <= n && p <= q
    ensures Value(n, p) <= Value(n, q)
  {
    MulMonotone(n as real, p, q);
  }

  lemma PaidValue(side: Side, n: int, price: real)
    ensures Paid(side, Value(n, price)) == Value(n, Paid(side, price))
  {
    assert n as real * -price == -(n as real * price);
  }

  /** Notional of taking `wanted` shares greedily from the front. */
  function Greedy(levels: seq<DepthLevel>, wanted: int): real {
    if levels == [] || wanted <= 0 || levels[0].quantity <= 0 then 0.0
    else
      var take := MinInt(levels[0].quantity, wanted);
      Value(take, levels[0].price) + Greedy(levels[1..], wanted - take)
  }

  function Consumed(levels: seq<DepthLevel>, wanted: int): nat {
    if levels == [] || wanted <= 0 || levels[0].quantity <= 0 then 0
    else 1 + Consumed(levels[1..], wanted - MinInt(levels[0].quantity, wanted))
  }

  /** Shares a walk for `wanted` obtains. */
  function Filled(levels: seq<DepthLevel>, wanted: int): int {
    MaxInt(0, MinInt(wanted, Visible(levels)))
  }

  /** Average price, quantity filled and levels used; nothing filled reports
      the touch. */
  method Walk(levels: seq<DepthLevel>, quantity: int) returns (price: real, filled: int, consumed: nat)
    requires levels != []
    ensures filled == Filled(levels, quantity)
    ensures price == if filled > 0 then Greedy(levels, filled) / filled as real else levels[0].price
    ensures consumed == Consumed(levels, quantity)
  {
    hide Value;
    var remaining := quantity;
    var notional := 0.0;
    consumed := 0;
    var k := 0;
    while k < |levels|
      invariant k <= |levels|
      invariant notional + Greedy(levels[k..], remaining) == Greedy(levels, quantity)
      invariant consumed + Consumed(levels[k..], remaining) == Consumed(levels, quantity)
      invariant remaining >= 0 || remaining == quantity
      invariant MinInt(quantity, 0) <= quantity - remaining
      invariant quantity - remaining + Filled(levels[k..], remaining) == Filled(levels, quantity)
    {
      if remaining <= 0 {
        break;
      }
      var level := levels[k];
      if level.quantity <= 0 {
        break;
      }
      var take := if level.quantity < remaining then level.quantity else remaining;
      assert levels[k..][1..] == levels[k + 1..];
      notional := notional + Value(take, level.price);
      remaining := remaining - take;
      consumed := consumed + 1;
      k := k + 1;
    }
    filled := quantity - remaining;
    GreedyFillsVisible(levels, quantity);
    if filled <= 0 {
      return levels[0].price, 0, consumed;
    }
    price := notional / filled as real;
  }

  /** Asking for more than is visible gets what is visible. */
  lemma {:induction false} GreedyFillsVisible(levels: seq<DepthLevel>, wanted: int)
    ensures Greedy(levels, wanted) == Greedy(levels, Filled(levels, wanted))
  {
    hide Value;
    if levels != [] && wanted > 0 && levels[0].quantity > 0 {
      GreedyFillsVisible(levels[1..], wanted - MinInt(levels[0].quantity, wanted));
    }
  }

  /** Any way of splitting an order over the levels of a ladder. */
  predicate IsAllocation(levels: seq<DepthLevel>, a: seq<int>) {
    && |a| == |levels|
    && forall i :: 0 <= i < |a| ==> 0 <= a[i] <= MaxInt(0, levels[i].quantity)
  }

  function Total(a: seq<int>): int {
    if a == [] then 0 else a[0] + Total(a[1..])
  }

  function Notional(levels: seq<DepthLevel>, a: seq<int>): real
    requires |a| == |levels|
  {
    if a == [] then 0.0 else Value(a[0], levels[0].price) + Notional(levels[1..], a[1..])
  }

  /** No level is better than p. */
  predicate NoneBetter(side: Side, levels: seq<DepthLevel>, p: real) {
    forall i :: 0 <= i < |levels| ==> p <= Paid(side, levels[i].price)
  }

  lemma TailSorted(side: Side, levels: seq<DepthLevel>)
    requires levels != [] && PricesSorted(side, levels)
    ensures PricesSorted(side, levels[1..])
    ensures NoneBetter(side, levels, Paid(side, levels[0].price))
    ensures NoneBetter(side, levels[1..], Paid(side, levels[0].price))
  {
    forall i, j | 0 <= i < j < |levels[1..]|
      ensures Paid(side, levels[1..][i].price) <= Paid(side, levels[1..][j].price)
    {
      assert Paid(side, levels[i + 1].price) <= Paid(side, levels[j + 1].price);
    }
  }

  lemma {:induction false} AllocationAtLeast(side: Side, levels: seq<DepthLevel>, a: seq<int>, p: real)
    requires IsAllocation(levels, a) && NoneBetter(side, levels, p)
    ensures Value(Total(a), p) <= Paid(side, Notional(levels, a))
    ensures 0 <= Total(a)
  {
    hide Value;
    if a == [] {
      ValueAdds(0, 0, p);
    } else {
      AllocationAtLeast(side, levels[1..], a[1..], p);
      ValueAdds(a[0], Total(a[1..]), p);
      ValueGrows(a[0], p, Paid(side, levels[0].price));
      PaidValue(side, a[0], levels[0].price);
    }
  }

  /** Whoever takes `extra` shares more than the greedy walk pays at least p for
      each of them, p being no worse than any level. */
  lemma {:induction false} GreedyBeatsAll(side: Side, levels: seq<DepthLevel>, a: seq<int>, wanted: nat, extra: nat,
                                          p: real)
    requires IsAllocation(levels, a) && PricesSorted(side, levels)
    requires wanted <= Visible(levels) && Total(a) == wanted + extra
    requires NoneBetter(side, levels, p)
    ensures Paid(side, Greedy(levels, wanted)) + Value(extra, p) <= Paid(side, Notional(levels, a))
  {
    hide Value;
    if wanted == 0 {
      AllocationAtLeast(side, levels, a, p);
    } else {
      var first := Paid(side, levels[0].price);
      var take := MinInt(levels[0].quantity, wanted);
      TailSorted(side, levels);
      ValueGrows(extra, p, first);
      PaidValue(side, take, levels[0].price);
      PaidValue(side, a[0], levels[0].price);
      ValueAdds(take, extra, first);
      if a[0] <= take {
        GreedyBeatsAll(side, levels[1..], a[1..], wanted - take, extra + take - a[0], first);
        ValueAdds(extra + take - a[0], a[0], first);
      } else {
        AllocationAtLeast(side, levels, a, first);
        assert take == wanted;
        assert Greedy(levels[1..], 0) == 0.0;
      }
    }
  }

  /** The walk is optimal: no split of the same quantity over the whole ladder
      buys cheaper or sells dearer. */
  lemma {:induction false} WalkIsOptimal(side: Side, levels: seq<DepthLevel>, quantity: int, a: seq<int>)
    requires levels != [] && PricesSorted(side, levels) && IsAllocation(levels, a)
    requires Total(a) == Filled(levels, quantity)
    ensures Paid(side, Greedy(levels, quantity)) <= Paid(side, Notional(levels, a))
  {
    hide Value;
    var first := Paid(side, levels[0].price);
    TailSorted(side, levels);
    GreedyFillsVisible(levels, quantity);
    GreedyBeatsAll(side, levels, a, Total(a), 0, first);
    ValueAdds(0, 0, first);
  }

  /** How a walk for some quantity splits it: the first n levels, all of them with
      size, and all but the last of them used up. */
  ghost predicate FromTheFront(levels: seq<DepthLevel>, quantity: int, a: seq<int>, n: nat) {
    && |a| == |levels| && n <= |a|
    && (forall i :: 0 <= i < n ==> 0 < a[i] <= levels[i].quantity)
    && (forall i :: 0 <= i < n - 1 ==> a[i] == levels[i].quantity)
    && (forall i :: n <= i < |a| ==> a[i] == 0)
    // It stops when the order is filled, or at the first level without size.
    && (if Total(a) < quantity then
          (forall i :: 0 <= i < n ==> a[i] == levels[i].quantity) && (n < |levels| ==> levels[n].quantity <= 0)
        else Total(a) == MaxInt(0, quantity))
  }

  /** What a walk obtains and pays is that of such a split. */
  lemma {:induction false} WalkTakesFromTheFront(levels: seq<DepthLevel>, quantity: int) returns (a: seq<int>)
    ensures FromTheFront(levels, quantity, a, Consumed(levels, quantity)) && IsAllocation(levels, a)
    ensures Total(a) == Filled(levels, quantity) && Notional(levels, a) == Greedy(levels, quantity)
  {
    hide Value;
    if levels == [] {
      a := [];
    } else if quantity <= 0 || levels[0].quantity <= 0 {
      a := seq(|levels|, _ => 0);
      NothingTaken(levels);
    } else {
      var take := MinInt(levels[0].quantity, quantity);
      var rest := WalkTakesFromTheFront(levels[1..], quantity - take);
      a := [take] + rest;
      assert a[1..] == rest;
      OneLevelMore(levels, quantity, rest, Consumed(levels[1..], quantity - take));
    }
  }

  lemma OneLevelMore(levels: seq<DepthLevel>, quantity: int, rest: seq<int>, n: nat)
    requires levels != [] && 0 < quantity && 0 < levels[0].quantity
    requires var take := MinInt(levels[0].quantity, quantity);
      && FromTheFront(levels[1..], quantity - take, rest, n) && IsAllocation(levels[1..], rest)
      && Total(rest) == Filled(levels[1..], quantity - take)
    requires quantity <= levels[0].quantity ==> n == 0
    ensures var a := [MinInt(levels[0].quantity, quantity)] + rest;
      FromTheFront(levels, quantity, a, n + 1) && IsAllocation(levels, a) && Total(a) == Filled(levels, quantity)
  {
    var take := MinInt(levels[0].quantity, quantity);
    var a := [take] + rest;
    assert a[1..] == rest;
    assert forall i :: 0 < i < |a| ==> a[i] == rest[i - 1] && levels[i] == levels[1..][i - 1];
  }

  lemma {:induction false} NothingTaken(levels: seq<DepthLevel>)
    ensures var a := seq(|levels|, _ => 0); Total(a) == 0 && Notional(levels, a) == 0.0
  {
    if levels != [] {
      NothingTaken(levels[1..]);
      assert seq(|levels|, _ => 0)[1..] == seq(|levels| - 1, _ => 0);
    }
  }

  /** Price of the last level a walk touches. */
  function LastPrice(levels: seq<DepthLevel>, wanted: nat): real
    requires 0 < wanted <= Visible(levels)
  {
    if wanted <= levels[0].quantity then levels[0].price
    else LastPrice(levels[1..], wanted - levels[0].quantity)
  }

  /** One level down the walk. */
  lemma GreedyStep(side: Side, levels: seq<DepthLevel>, wanted: nat)
    requires 0 < wanted <= Visible(levels)
    ensures var q, first := levels[0].quantity, Paid(side, levels[0].price);
      Paid(side, Greedy(levels, wanted)) ==
        if wanted <= q then Value(wanted, first)
        else Value(q, first) + Paid(side, Greedy(levels[1..], wanted - q))
  {
    hide Value;
    PaidValue(side, MinInt(levels[0].quantity, wanted), levels[0].price);
    assert Greedy(levels[1..], 0) == 0.0;
  }

  /** The average lies between the touch and the last level used. */
  lemma {:induction false} AverageWithinLevels(side: Side, levels: seq<DepthLevel>, wanted: nat)
    requires PricesSorted(side, levels) && 0 < wanted <= Visible(levels)
    ensures Value(wanted, Paid(side, levels[0].price)) <= Paid(side, Greedy(levels, wanted))
    ensures Paid(side, Greedy(levels, wanted)) <= Value(wanted, Paid(side, LastPrice(levels, wanted)))
    ensures Paid(side, levels[0].price) <= Paid(side, LastPrice(levels, wanted))
  {
    hide Value, Greedy;
    var first, q := Paid(side, levels[0].price), levels[0].quantity;
    GreedyStep(side, levels, wanted);
    if q < wanted {
      TailSorted(side, levels);
      AverageWithinLevels(side, levels[1..], wanted - q);
      var last := Paid(side, LastPrice(levels, wanted));
      ValueGrows(wanted - q, first, Paid(side, levels[1].price));
      ValueGrows(q, first, last);
      ValueAdds(q, wanted - q, first);
      ValueAdds(q, wanted - q, last);
    }
  }

  /** Each share beyond the first `less` costs at least the last price paid. */
  lemma {:induction false} MarginalPrice(side: Side, levels: seq<DepthLevel>, less: nat, more: nat)
    requires PricesSorted(side, levels) && 0 < less <= more <= Visible(levels)
    ensures Paid(side, Greedy(levels, less)) + Value(more - less, Paid(side, LastPrice(levels, less)))
         <= Paid(side, Greedy(levels, more))
  {
    hide Value, Greedy;
    var first, q := Paid(side, levels[0].price), levels[0].quantity;
    GreedyStep(side, levels, less);
    GreedyStep(side, levels, more);
    TailSorted(side, levels);
    if q < less {
      MarginalPrice(side, levels[1..], less - q, more - q);
    } else if q < more {
      AverageWithinLevels(side, levels[1..], more - q);
      ValueGrows(more - q, first, Paid(side, levels[1].price));
      ValueAdds(q - less, more - q, first);
      ValueAdds(less, q - less, first);
    } else {
      ValueAdds(less, more - less, first);
    }
  }

  /** A larger order never gets a better average price. */
  lemma {:induction false} AverageNeverImproves(side: Side, levels: seq<DepthLevel>, less: nat, more: nat)
    requires PricesSorted(side, levels) && 0 < less <= more <= Visible(levels)
    ensures Paid(side, Greedy(levels, less) / less as real) <= Paid(side, Greedy(levels, more) / more as real)
  {
    hide Value, Greedy;
    MarginalPrice(side, levels, less, more);
    AverageWithinLevels(side, levels, less);
    CompareAverages(Paid(side, Greedy(levels, less)), less, Paid(side, Greedy(levels, more)), more,
                    Paid(side, LastPrice(levels, less)));
    PaidQuotient(side, Greedy(levels, less), less as real);
    PaidQuotient(side, Greedy(levels, more), more as real);
  }

  lemma PaidQuotient(side: Side, x: real, n: real)
    requires 0.0 < n
    ensures Paid(side, x / n) == Paid(side, x) / n
  {
    assert (-x) / n == -(x / n);
  }

  lemma CompareAverages(a: real, n: int, b: real, m: int, last: real)
    requires 0 < n <= m && a <= Value(n, last) && a + Value(m - n, last) <= b
    ensures a / n as real <= b / m as real
  {
    var average := a / n as real;
    AverageBelow(a, n as real, last);
    MulMonotone((m - n) as real, average, last);
    assert average * m as real <= b;
    QuotientAtLeast(b, m as real, average);
  }

  lemma AverageBelow(a: real, n: real, last: real)
    requires 0.0 < n && a <= n * last
    ensures a / n <= last
  {
    QuotientAtLeast(n * last - a, n, 0.0);
    assert (n * last - a) / n == last - a / n;
  }

  lemma QuotientAtLeast(b: real, m: real, x: real)
    requires 0.0 < m && x * m <= b
    ensures x <= b / m
  {
    var y := b / m;
    assert y * m == b;
    assert (y - x) * m >= 0.0;
  }

  /** The walk uses no more levels than it needs: one less would not hold what
      was filled. */
  lemma {:induction false} ConsumedIsLeast(levels: seq<DepthLevel>, wanted: int)
    ensures var n := Consumed(levels, wanted);
      && n <= |levels|
      && Filled(levels, wanted) <= Visible(levels[..n])
      && (n > 0 ==> Visible(levels[..n - 1]) < Filled(levels, wanted))
  {
    if levels != [] && wanted > 0 && levels[0].quantity > 0 {
      var n := Consumed(levels, wanted);
      ConsumedIsLeast(levels[1..], wanted - MinInt(levels[0].quantity, wanted));
      assert levels[..n][0] == levels[0] && levels[..n][1..] == levels[1..][..n - 1];
      if n > 1 {
        assert levels[..n - 1][0] == levels[0] && levels[..n - 1][1..] == levels[1..][..n - 2];
      }
    }
  }

  // -- quotes ---------------------------------------------------------------------

  datatype FillQuote = FillQuote(
    price: real,
    referencePrice: real,
    offsetTicks: real,
    requested: int,
    filled: int,
    levelsConsumed: nat,
    complete: bool)

  function BasePrice(c: ExecutionConfig, levels: seq<DepthLevel>, quantity: int): real
    requires levels != []
  {
    var filled := Filled(levels, quantity);
    if c.useDepthWalk && filled > 0 then Greedy(levels, filled) / filled as real else levels[0].price
  }

  /** A quote against one side; None is the error for an empty ladder or a
      quantity that is not positive. */
  function Quote(c: ExecutionConfig, s: Snapshot, side: Side, quantity: int, offsetTicks: real): Option<FillQuote>
    requires 0.0 < s.tickSize
  {
    var levels := s.Levels(side);
    if levels == [] || quantity <= 0 then None
    else
      var touch := levels[0].price;
      var filled := if c.useDepthWalk then Filled(levels, quantity) else quantity;
      var consumed := if c.useDepthWalk then Consumed(levels, quantity) else 1;
      var base := BasePrice(c, levels, quantity);
      var offset := Product(offsetTicks, s.tickSize);
      var rounded := RoundToTick(if side == Ask then base + offset else base - offset, s.tickSize);
      var price := if side == Ask then MaxReal(rounded, touch) else MinReal(rounded, touch);
      Some(FillQuote(price, touch, offsetTicks, quantity, filled, consumed, filled >= quantity))
  }

  predicate OnGrid(price: real, tick: real)
    requires 0.0 < tick
  {
    price == (price / tick).Floor as real * tick
  }

  lemma GridPoint(n: int, tick: real)
    requires 0.0 < tick
    ensures OnGrid(n as real * tick, tick)
    ensures n as real * tick / tick == n as real
  {
    assert n as real * tick / tick == n as real;
  }

  /** An order never fills better than the touch it crossed, and on the grid
      whenever the touch is. */
  lemma QuoteNeverBeatsTouch(c: ExecutionConfig, s: Snapshot, side: Side, quantity: int, offsetTicks: real)
    requires 0.0 < s.tickSize && Quote(c, s, side, quantity, offsetTicks).Some?
    ensures var q := Quote(c, s, side, quantity, offsetTicks).value;
      && Paid(side, s.Levels(side)[0].price) <= Paid(side, q.price)
      && (OnGrid(s.Levels(side)[0].price, s.tickSize) ==> OnGrid(q.price, s.tickSize))
      && q.requested == quantity && q.referencePrice == s.Levels(side)[0].price && q.offsetTicks == offsetTicks
      && (!c.useDepthWalk ==> q.filled == quantity && q.levelsConsumed == 1)
      && (c.useDepthWalk ==>
            q.filled == Filled(s.Levels(side), quantity) && q.levelsConsumed == Consumed(s.Levels(side), quantity))
      && q.filled <= q.requested && (q.complete <==> q.filled == q.requested)
      && (c.useDepthWalk ==>
            q.filled <= Visible(s.Levels(side)) && (q.complete <==> quantity <= Visible(s.Levels(side))))
  {
    hide OnGrid, RoundToTick, BasePrice;
    var base, offset := BasePrice(c, s.Levels(side), quantity), Product(offsetTicks, s.tickSize);
    RoundedIsOnGrid(base + offset, s.tickSize);
    RoundedIsOnGrid(base - offset, s.tickSize);
  }

  /** A quote is within half a tick of the walked average plus the offset, paid
      away from the market, or at the touch if that is worse. */
  lemma QuoteIsNearAverage(c: ExecutionConfig, s: Snapshot, side: Side, quantity: int, offsetTicks: real)
    requires 0.0 < s.tickSize && Quote(c, s, side, quantity, offsetTicks).Some?
    ensures var price := Quote(c, s, side, quantity, offsetTicks).value.price;
      var wanted := Paid(side, BasePrice(c, s.Levels(side), quantity)) + Product(offsetTicks, s.tickSize);
      Abs(Paid(side, price) - wanted) <= s.tickSize / 2.0
      || (price == s.Levels(side)[0].price && wanted < Paid(side, price))
  {
    hide RoundToTick, BasePrice, Product;
    var base, offset := BasePrice(c, s.Levels(side), quantity), Product(offsetTicks, s.tickSize);
    RoundToTickIsNearest(base + offset, s.tickSize);
    RoundToTickIsNearest(base - offset, s.tickSize);
  }

  lemma RoundedIsOnGrid(price: real, tick: real)
    requires 0.0 < tick
    ensures OnGrid(RoundToTick(price, tick), tick)
  {
    hide OnGrid;
    var n := Round(price / tick);
    GridPoint(n, tick);
    assert RoundToTick(price, tick) == n as real * tick;
  }

  function BpsToTicks(bps: real, reference: real, tick: real): real {
    SafeDiv(reference * bps * 0.0001, tick)
  }

  function EntryOffset(c: ExecutionConfig, s: Snapshot): real {
    if c.entryAggressionTicks.Some? then c.entryAggressionTicks.value
    else BpsToTicks(c.entryAggressionBps, s.mid, s.tickSize)
  }

  function ExitOffset(c: ExecutionConfig, s: Snapshot): real {
    if c.exitSlippageTicks.Some? then c.exitSlippageTicks.value
    else BpsToTicks(c.exitSlippageBps, s.mid, s.tickSize)
  }

  /** A long buys the ask and sells the bid, a short the other way round. */
  function EntrySide(d: Direction): Side {
    if d == Long then Ask else Bid
  }

  function ExitSide(d: Direction): Side {
    if d == Long then Bid else Ask
  }

  // -- positions ------------------------------------------------------------------

  datatype Terms = Terms(direction: Direction, quantity: int, entryPrice: real, stopPrice: real, targetPrice: real)

  function OpenPosition(c: ExecutionConfig, s: Snapshot, d: Direction, quantity: int): Option<Terms>
    requires 0.0 < s.tickSize
  {
    var q := Quote(c, s, EntrySide(d), quantity, EntryOffset(c, s));
    if d == Flat || q.None? then None
    else
      var price, sign := q.value.price, d.Signum() as real;
      Some(Terms(d, if q.value.filled > 0 then q.value.filled else quantity, price,
                 RoundToTick(price - Product(sign, Product(c.stopTicks, s.tickSize)), s.tickSize),
                 RoundToTick(price + Product(sign, Product(c.targetTicks, s.tickSize)), s.tickSize)))
  }

  datatype PnL = PnL(exitPrice: real, grossRupees: real, costRupees: real, netRupees: real)

  function Brokerage(c: CostConfig, turnover: real): real {
    var rate := Product(c.brokerageRate, turnover);
    var flat := if c.brokerageFlatPerOrder > 0.0 then MinReal(rate, c.brokerageFlatPerOrder) else rate;
    if c.brokerageCapPerOrder > 0.0 then MinReal(flat, c.brokerageCapPerOrder) else flat
  }

  /** Rupee cost of one buy leg and one sell leg. */
  function RoundTrip(c: CostConfig, buyPrice: real, sellPrice: real, quantity: int): real {
    if !c.enabled || quantity <= 0 then 0.0
    else
      var buy, sell := Value(quantity, buyPrice), Value(quantity, sellPrice);
      var brokerage := Brokerage(c, buy) + Brokerage(c, sell);
      var exchange := Product(c.exchangeTxnRate, buy + sell);
      var sebi := Product(c.sebiRate, buy + sell);
      var statutory := Product(c.sttSellRate, sell) + Product(c.stampDutyBuyRate, buy);
      var gst := Product(c.gstRate, brokerage + exchange + sebi);
      brokerage + exchange + sebi + statutory + gst
  }

  function MarkToMarket(c: ExecutionConfig, s: Snapshot, p: Terms): Option<PnL>
    requires 0.0 < s.tickSize
  {
    var q := Quote(c, s, ExitSide(p.direction), p.quantity, ExitOffset(c, s));
    if p.direction == Flat || q.None? then None
    else
      var exit := q.value.price;
      var gross := Value(p.quantity, Product(p.direction.Signum() as real, exit - p.entryPrice));
      var cost := if p.direction == Long then RoundTrip(c.cost, p.entryPrice, exit, p.quantity)
                  else RoundTrip(c.cost, exit, p.entryPrice, p.quantity);
      Some(PnL(exit, gross, cost, gross - cost))
  }

  /** Brokerage is the least of the ad-valorem charge and the limits in force. */
  lemma BrokerageIsLeast(c: CostConfig, turnover: real, x: real)
    ensures x <= Brokerage(c, turnover) <==>
      && x <= Product(c.brokerageRate, turnover)
      && (c.brokerageFlatPerOrder > 0.0 ==> x <= c.brokerageFlatPerOrder)
      && (c.brokerageCapPerOrder > 0.0 ==> x <= c.brokerageCapPerOrder)
  {
  }

  /** Which leg is the sale matters only for transaction tax, and which is the
      purchase only for stamp duty. */
  lemma CostsFollowTheLegs(c: CostConfig, a: real, b: real, quantity: int)
    requires c.enabled && 0 < quantity
    ensures RoundTrip(c, a, b, quantity) - RoundTrip(c, b, a, quantity)
         == Product(c.sttSellRate - c.stampDutyBuyRate, Value(quantity, b) - Value(quantity, a))
  {
    hide Brokerage, Value, Product;
    var x, y := Value(quantity, a), Value(quantity, b);
    assert x + y == y + x;
    Exchange(c.sttSellRate, c.stampDutyBuyRate, x, y);
  }

  /** What a round trip costs: both brokerages and the turnover charges, marked up
      by the service tax, then the transaction tax of the sale and the stamp duty
      of the purchase, which are not. */
  lemma RoundTripAmount(c: CostConfig, buyPrice: real, sellPrice: real, quantity: int)
    ensures !c.enabled || quantity <= 0 ==> RoundTrip(c, buyPrice, sellPrice, quantity) == 0.0
    ensures c.enabled && 0 < quantity ==>
      var buy, sell := Value(quantity, buyPrice), Value(quantity, sellPrice);
      var charges := Brokerage(c, buy) + Brokerage(c, sell) + Product(c.exchangeTxnRate + c.sebiRate, buy + sell);
      RoundTrip(c, buyPrice, sellPrice, quantity)
      == Product(1.0 + c.gstRate, charges) + Product(c.sttSellRate, sell) + Product(c.stampDutyBuyRate, buy)
  {
    hide Brokerage, Value, Product;
    var turnover := Value(quantity, buyPrice) + Value(quantity, sellPrice);
    var brokerage := Brokerage(c, Value(quantity, buyPrice)) + Brokerage(c, Value(quantity, sellPrice));
    RatesAdd(c.exchangeTxnRate, c.sebiRate, turnover);
    MarkedUp(c.gstRate, brokerage + Product(c.exchangeTxnRate + c.sebiRate, turnover));
  }

  lemma RatesAdd(p: real, q: real, x: real)
    ensures Product(p + q, x) == Product(p, x) + Product(q, x)
  {
  }

  lemma MarkedUp(rate: real, x: real)
    ensures Product(1.0 + rate, x) == x + Product(rate, x)
  {
  }

  /** A position is left at the touch it is not entered by, or at the walked
      average, less the slippage in ticks, to half a tick, and never better than
      that touch; its costs are those of its own two legs. */
  lemma ExitIsNearTouch(c: ExecutionConfig, s: Snapshot, p: Terms)
    requires 0.0 < s.tickSize && p.direction != Flat && 0 < p.quantity && s.Levels(ExitSide(p.direction)) != []
    ensures var m, side := MarkToMarket(c, s, p), ExitSide(p.direction);
      && m.Some?
      && var base, slippage := BasePrice(c, s.Levels(side), p.quantity), Product(ExitOffset(c, s), s.tickSize);
      var exit, touch := m.value.exitPrice, s.Levels(side)[0].price;
      var wanted := if p.direction == Long then base - slippage else base + slippage;
      && (if p.direction == Long then exit <= touch else touch <= exit)
      && (exit == touch || Abs(exit - wanted) <= s.tickSize / 2.0)
      && m.value.costRupees == (if p.direction == Long then RoundTrip(c.cost, p.entryPrice, exit, p.quantity)
                                else RoundTrip(c.cost, exit, p.entryPrice, p.quantity))
      && m.value.netRupees == m.value.grossRupees - m.value.costRupees
  {
    QuoteIsNearAverage(c, s, ExitSide(p.direction), p.quantity, ExitOffset(c, s));
    QuoteNeverBeatsTouch(c, s, ExitSide(p.direction), p.quantity, ExitOffset(c, s));
    hide RoundTrip, BasePrice, ExitOffset, RoundToTick, Product, Value;
  }

  lemma Exchange(r: real, q: real, x: real, y: real)
    ensures Product(r, y) + Product(q, x) - Product(r, x) - Product(q, y) == Product(r - q, y - x)
  {
  }

  /** A long and a short entered at one price and left at another win and lose
      the same amount, and differ in costs by the taxes of their exchanged legs. */
  lemma OppositePositions(c: ExecutionConfig, s: Snapshot, long: Terms, s': Snapshot, short: Terms)
    requires 0.0 < s.tickSize && 0.0 < s'.tickSize && long.direction == Long && short.direction == Short
    requires MarkToMarket(c, s, long).Some? && MarkToMarket(c, s', short).Some?
    requires long.quantity == short.quantity && long.entryPrice == short.entryPrice
    requires MarkToMarket(c, s, long).value.exitPrice == MarkToMarket(c, s', short).value.exitPrice
    ensures var a, b, n := MarkToMarket(c, s, long).value, MarkToMarket(c, s', short).value, long.quantity;
      && 0 < n && a.grossRupees == Value(n, a.exitPrice - long.entryPrice) == -b.grossRupees
      && a.costRupees - b.costRupees == (
           if c.cost.enabled then
             Product(c.cost.sttSellRate - c.cost.stampDutyBuyRate, Value(n, a.exitPrice) - Value(n, long.entryPrice))
           else 0.0)
  {
    hide RoundTrip, Value, Product, BasePrice, EntryOffset, ExitOffset, RoundToTick;
    var exit := MarkToMarket(c, s, long).value.exitPrice;
    var move := exit - long.entryPrice;
    UnitProducts(move);
    NegativeValue(long.quantity, move);
    if c.cost.enabled {
      CostsFollowTheLegs(c.cost, long.entryPrice, exit, long.quantity);
    } else {
      FreeOfCost(c.cost, long.entryPrice, exit, long.quantity);
    }
  }

  lemma FreeOfCost(c: CostConfig, a: real, b: real, quantity: int)
    requires !c.enabled
    ensures RoundTrip(c, a, b, quantity) == RoundTrip(c, b, a, quantity) == 0.0
  {
  }

  /** Stop and target lie within half a tick of their configured distances from
      the fill: the stop on the losing and the target on the winning side whenever
      the distance is more than half a tick. */
  lemma StopAndTargetBracketEntry(c: ExecutionConfig, s: Snapshot, d: Direction, quantity: int)
    requires 0.0 < s.tickSize && OpenPosition(c, s, d, quantity).Some?
    ensures var p := OpenPosition(c, s, d, quantity).value;
      var loss, gain := if d == Long then p.entryPrice - p.stopPrice else p.stopPrice - p.entryPrice,
                        if d == Long then p.targetPrice - p.entryPrice else p.entryPrice - p.targetPrice;
      && Abs(loss - Product(c.stopTicks, s.tickSize)) <= s.tickSize / 2.0
      && Abs(gain - Product(c.targetTicks, s.tickSize)) <= s.tickSize / 2.0
      && (0.5 < c.stopTicks ==> 0.0 < loss) && (0.5 < c.targetTicks ==> 0.0 < gain)
      && p.direction == d
      && p.quantity == (var held := if c.useDepthWalk then Filled(s.Levels(EntrySide(d)), quantity) else 0;
                        if 0 < held then held else quantity)
      && OnGrid(p.stopPrice, s.tickSize) && OnGrid(p.targetPrice, s.tickSize)
  {
    hide Quote, RoundToTick, OnGrid, Product;
    var p, sign := OpenPosition(c, s, d, quantity).value, d.Signum() as real;
    QuoteNeverBeatsTouch(c, s, EntrySide(d), quantity, EntryOffset(c, s));
    var down, up := Product(c.stopTicks, s.tickSize), Product(c.targetTicks, s.tickSize);
    UnitProducts(down);
    UnitProducts(up);
    if 0.5 < c.stopTicks {
      MoreThanHalfATick(c.stopTicks, s.tickSize);
    }
    if 0.5 < c.targetTicks {
      MoreThanHalfATick(c.targetTicks, s.tickSize);
    }
    RoundToTickIsNearest(p.entryPrice - Product(sign, down), s.tickSize);
    RoundToTickIsNearest(p.entryPrice + Product(sign, up), s.tickSize);
    RoundedIsOnGrid(p.entryPrice - Product(sign, down), s.tickSize);
    RoundedIsOnGrid(p.entryPrice + Product(sign, up), s.tickSize);
  }

  lemma MoreThanHalfATick(ticks: real, tick: real)
    requires 0.0 < tick && 0.5 < ticks
    ensures tick / 2.0 < Product(ticks, tick)
  {
    assert tick * (ticks - 0.5) > 0.0;
  }

  lemma UnitProducts(x: real)
    ensures Product(1.0, x) == x && Product(-1.0, x) == -x
  {
  }

  lemma ProductNonNegative(a: real, b: real)
    requires 0.0 <= a && 0.0 <= b
    ensures 0.0 <= Product(a, b)
  {
  }

  lemma BrokerageNonNegative(c: CostConfig, turnover: real)
    requires ValidCosts(c) && 0.0 <= turnover
    ensures 0.0 <= Brokerage(c, turnover)
  {
    ProductNonNegative(c.brokerageRate, turnover);
    BrokerageIsLeast(c, turnover, 0.0);
    hide Brokerage;
  }

  lemma CostsNonNegative(c: CostConfig, buyPrice: real, sellPrice: real, quantity: int)
    requires ValidCosts(c) && 0.0 <= buyPrice && 0.0 <= sellPrice
    ensures 0.0 <= RoundTrip(c, buyPrice, sellPrice, quantity)
  {
    if c.enabled && quantity > 0 {
      var buy, sell := Value(quantity, buyPrice), Value(quantity, sellPrice);
      ValueGrows(quantity, 0.0, buyPrice);
      ValueGrows(quantity, 0.0, sellPrice);
      BrokerageNonNegative(c, buy);
      BrokerageNonNegative(c, sell);
      hide Brokerage, Product;
      var brokerage := Brokerage(c, buy) + Brokerage(c, sell);
      ProductNonNegative(c.exchangeTxnRate, buy + sell);
      ProductNonNegative(c.sebiRate, buy + sell);
      ProductNonNegative(c.sttSellRate, sell);
      ProductNonNegative(c.stampDutyBuyRate, buy);
      ProductNonNegative(c.gstRate,
                         brokerage + Product(c.exchangeTxnRate, buy + sell) + Product(c.sebiRate, buy + sell));
    }
  }

  /** Opening and closing against the same book loses at least the spread on
      every share: the fill model hands out no free money. */
  lemma SameBookLosesTheSpread(c: ExecutionConfig, s: Snapshot, d: Direction, quantity: int)
    requires ValidConfig(c) && 0.0 < s.tickSize && 0 < quantity && d != Flat
    requires s.Levels(Bid) != [] && s.Levels(Ask) != []
    ensures var p := OpenPosition(c, s, d, quantity);
      && p.Some? && p.value.quantity > 0 && MarkToMarket(c, s, p.value).Some?
      && var m := MarkToMarket(c, s, p.value).value;
      && m.grossRupees <= -Value(p.value.quantity, s.Levels(Ask)[0].price - s.Levels(Bid)[0].price)
      && (0.0 <= m.exitPrice && 0.0 <= p.value.entryPrice ==> m.netRupees <= m.grossRupees)
  {
    hide Filled, RoundToTick, RoundTrip, BasePrice, BpsToTicks, Value, Product;
    QuoteNeverBeatsTouch(c, s, EntrySide(d), quantity, EntryOffset(c, s));
    var p := OpenPosition(c, s, d, quantity).value;
    QuoteNeverBeatsTouch(c, s, ExitSide(d), p.quantity, ExitOffset(c, s));
    var m := MarkToMarket(c, s, p).value;
    var move := Product(d.Signum() as real, m.exitPrice - p.entryPrice);
    var spread := s.Levels(Ask)[0].price - s.Levels(Bid)[0].price;
    UnitProducts(m.exitPrice - p.entryPrice);
    assert move <= -spread;
    ValueGrows(p.quantity, move, -spread);
    NegativeValue(p.quantity, spread);
    if 0.0 <= m.exitPrice && 0.0 <= p.entryPrice {
      CostsNonNegative(c.cost, p.entryPrice, m.exitPrice, p.quantity);
      CostsNonNegative(c.cost, m.exitPrice, p.entryPrice, p.quantity);
    }
  }

  lemma NegativeValue(n: int, price: real)
    ensures Value(n, -price) == -Value(n, price)
  {
  }

  /** With the depth walk, a larger order is never quoted a better price. */
  lemma QuoteNeverImproves(c: ExecutionConfig, s: Snapshot, side: Side, less: int, more: int, offsetTicks: real)
    requires 0.0 < s.tickSize && c.useDepthWalk && 0 < less <= more && PricesSorted(side, s.Levels(side))
    requires s.Levels(side) != []
    ensures var a, b := Quote(c, s, side, less, offsetTicks), Quote(c, s, side, more, offsetTicks);
      a.Some? && b.Some? && Paid(side, a.value.price) <= Paid(side, b.value.price)
  {
    var levels := s.Levels(side);
    if Visible(levels) > 0 {
      AverageNeverImproves(side, levels, Filled(levels, less), Filled(levels, more));
    }
    hide Greedy, RoundToTick, Filled, Product;
    var a, b, offset := BasePrice(c, levels, less), BasePrice(c, levels, more), Product(offsetTicks, s.tickSize);
    if side == Ask {
      RoundToTickMonotone(a + offset, b + offset, s.tickSize);
    } else {
      RoundToTickMonotone(b - offset, a - offset, s.tickSize);
    }
  }

  // -- long/short mirror ------------------------------------------------------------

  function Reflected(l: DepthLevel, pivot: real): DepthLevel {
    l.(price := pivot - l.price)
  }

  function ReflectedLadder(levels: seq<DepthLevel>, pivot: real): (r: seq<DepthLevel>) {
    Mapped(levels, (l: DepthLevel) => Reflected(l, pivot))
  }

  /** The book seen from the other side: every price mirrored at half the pivot. */
  function ReflectedBook(s: Snapshot, pivot: real): Snapshot {
    s.(raw := s.raw.(bids := ReflectedLadder(s.raw.asks, pivot), asks := ReflectedLadder(s.raw.bids, pivot)),
       bestBid := Reflected(s.bestAsk, pivot), bestAsk := Reflected(s.bestBid, pivot), mid := pivot - s.mid)
  }

  lemma {:induction false} ReflectedWalk(levels: seq<DepthLevel>, pivot: real, wanted: int)
    ensures var r := ReflectedLadder(levels, pivot);
      && Visible(r) == Visible(levels) && Consumed(r, wanted) == Consumed(levels, wanted)
      && (0 <= wanted <= Visible(levels) ==> Greedy(r, wanted) == Value(wanted, pivot) - Greedy(levels, wanted))
  {
    hide Value;
    ValueAdds(0, 0, pivot);
    if levels != [] {
      var q := levels[0].quantity;
      assert ReflectedLadder(levels, pivot)[1..] == ReflectedLadder(levels[1..], pivot);
      ReflectedWalk(levels[1..], pivot, wanted - MinInt(q, wanted));
      ValueReflects(MinInt(q, wanted), pivot, levels[0].price);
      ValueAdds(MinInt(q, wanted), wanted - MinInt(q, wanted), pivot);
    }
  }

  lemma ValueReflects(n: int, pivot: real, price: real)
    ensures Value(n, pivot - price) == Value(n, pivot) - Value(n, price)
  {
  }

  lemma ReflectedBase(c: ExecutionConfig, levels: seq<DepthLevel>, pivot: real, quantity: int)
    requires levels != []
    ensures BasePrice(c, ReflectedLadder(levels, pivot), quantity) == pivot - BasePrice(c, levels, quantity)
  {
    var n := Filled(levels, quantity);
    ReflectedWalk(levels, pivot, n);
    hide Greedy, Visible;
    if n > 0 {
      QuotientReflects(Greedy(levels, n), n as real, pivot);
    }
  }

  lemma QuotientReflects(x: real, n: real, pivot: real)
    requires 0.0 < n
    ensures (n * pivot - x) / n == pivot - x / n
  {
    var q := x / n;
    assert q * n == x;
    assert n * pivot - x == n * (pivot - q);
    Quotient(pivot - q, n);
  }

  lemma Quotient(x: real, n: real)
    requires 0.0 < n
    ensures n * x / n == x
  {
  }

  /** At an even number of ticks reflection and half-even rounding commute. */
  lemma ReflectedRounding(m: int, tick: real, price: real)
    requires 0.0 < tick
    ensures RoundToTick(Product((2 * m) as real, tick) - price, tick)
        == Product((2 * m) as real, tick) - RoundToTick(price, tick)
  {
    var y := price / tick;
    assert (Product((2 * m) as real, tick) - price) / tick == -y + (2 * m) as real;
    RoundShift(-y, 2 * m);
    RoundIsOdd(y);
    hide Round;
    assert (2 * m - Round(y)) as real * tick == (2 * m) as real * tick - Round(y) as real * tick;
  }

  /** Buying from a book costs what selling into its reflection yields. */
  lemma MirrorQuote(c: ExecutionConfig, s: Snapshot, side: Side, quantity: int, offsetTicks: real, m: int)
    requires 0.0 < s.tickSize
    ensures var pivot := Product((2 * m) as real, s.tickSize);
      var a, b := Quote(c, s, side, quantity, offsetTicks),
                  Quote(c, ReflectedBook(s, pivot), if side == Ask then Bid else Ask, quantity, offsetTicks);
      && (a.None? <==> b.None?)
      && (a.Some? ==> b.value == a.value.(price := pivot - a.value.price,
                                          referencePrice := pivot - a.value.referencePrice))
  {
    var pivot, levels := Product((2 * m) as real, s.tickSize), s.Levels(side);
    if levels != [] && quantity > 0 {
      var base, offset := BasePrice(c, levels, quantity), Product(offsetTicks, s.tickSize);
      ReflectedBase(c, levels, pivot, quantity);
      ReflectedWalk(levels, pivot, quantity);
      hide BasePrice, RoundToTick, Product, Visible, Consumed;
      ReflectedRounding(m, s.tickSize, base + offset);
      ReflectedRounding(m, s.tickSize, base - offset);
    }
  }

  /** An offset in basis points of the mid survives reflection exactly when the
      mid does, or when it is nothing anyway. */
  lemma OffsetsReflectExactlyWhen(c: ExecutionConfig, s: Snapshot, pivot: real)
    requires 0.0 < s.tickSize
    ensures EntryOffset(c, ReflectedBook(s, pivot)) == EntryOffset(c, s) <==>
      c.entryAggressionTicks.Some? || c.entryAggressionBps == 0.0 || s.tickSize < EPSILON || s.mid == pivot / 2.0
    ensures ExitOffset(c, ReflectedBook(s, pivot)) == ExitOffset(c, s) <==>
      c.exitSlippageTicks.Some? || c.exitSlippageBps == 0.0 || s.tickSize < EPSILON || s.mid == pivot / 2.0
  {
    BpsReflect(c.entryAggressionBps, s.mid, pivot - s.mid, s.tickSize);
    BpsReflect(c.exitSlippageBps, s.mid, pivot - s.mid, s.tickSize);
  }

  lemma BpsReflect(bps: real, a: real, b: real, tick: real)
    requires 0.0 < tick
    ensures BpsToTicks(bps, a, tick) == BpsToTicks(bps, b, tick) <==> bps == 0.0 || tick < EPSILON || a == b
  {
    QuotientsCompare(a * bps * 0.0001, b * bps * 0.0001, tick);
    QuotientsCompare(b * bps * 0.0001, a * bps * 0.0001, tick);
    assert (a - b) * bps == a * bps - b * bps;
  }

  /** A short on a book is a long on its reflection, with the same aggression:
      entry, stop and target are reflected. */
  lemma MirrorPosition(c: ExecutionConfig, s: Snapshot, d: Direction, quantity: int, m: int)
    requires 0.0 < s.tickSize
    requires EntryOffset(c, ReflectedBook(s, Product((2 * m) as real, s.tickSize))) == EntryOffset(c, s)
    ensures var pivot := Product((2 * m) as real, s.tickSize);
      var a, b := OpenPosition(c, s, d, quantity),
                  OpenPosition(c, ReflectedBook(s, pivot), MirrorDirection(d), quantity);
      && (a.None? <==> b.None?)
      && (a.Some? ==> b.value == ReflectedTerms(a.value, pivot))
  {
    hide Quote, RoundToTick, Product, Round, EntryOffset;
    var pivot := Product((2 * m) as real, s.tickSize);
    MirrorQuote(c, s, EntrySide(d), quantity, EntryOffset(c, s), m);
    var q := Quote(c, s, EntrySide(d), quantity, EntryOffset(c, s));
    if d != Flat && q.Some? {
      var down, up := Product(c.stopTicks, s.tickSize), Product(c.targetTicks, s.tickSize);
      UnitProducts(down);
      UnitProducts(up);
      var sign := d.Signum() as real;
      ReflectedRounding(m, s.tickSize, q.value.price - Product(sign, down));
      ReflectedRounding(m, s.tickSize, q.value.price + Product(sign, up));
    }
  }

  function ReflectedTerms(p: Terms, pivot: real): Terms {
    Terms(MirrorDirection(p.direction), p.quantity, pivot - p.entryPrice, pivot - p.stopPrice, pivot - p.targetPrice)
  }

  /** The same books, reflected, hit the stop, and the gross result is the same. */
  lemma MirrorStopAndGross(c: ExecutionConfig, s: Snapshot, p: Terms, m: int)
    requires 0.0 < s.tickSize
    requires ExitOffset(c, ReflectedBook(s, Product((2 * m) as real, s.tickSize))) == ExitOffset(c, s)
    ensures var pivot := Product((2 * m) as real, s.tickSize);
      var r, t := ReflectedBook(s, pivot), ReflectedTerms(p, pivot);
      && (StopHit(t, r) <==> StopHit(p, s))
      && (MarkToMarket(c, r, t).None? <==> MarkToMarket(c, s, p).None?)
      && (MarkToMarket(c, s, p).Some? ==>
          MarkToMarket(c, r, t).value.grossRupees == MarkToMarket(c, s, p).value.grossRupees)
  {
    hide Quote, RoundTrip, Value, Product, ExitOffset;
    MirrorQuote(c, s, ExitSide(p.direction), p.quantity, ExitOffset(c, s), m);
    var q := Quote(c, s, ExitSide(p.direction), p.quantity, ExitOffset(c, s));
    if q.Some? {
      UnitProducts(q.value.price - p.entryPrice);
      UnitProducts(p.entryPrice - q.value.price);
    }
  }

  // -- stops ----------------------------------------------------------------------

  const PRICE_EPSILON := 0.0000001

  /** Reached on the side of the book the position would leave by. */
  predicate StopHit(p: Terms, s: Snapshot) {
    match p.direction
    case Long => s.bestBid.price <= p.stopPrice + PRICE_EPSILON
    case Short => s.bestAsk.price >= p.stopPrice - PRICE_EPSILON
    case Flat => false
  }

  lemma GridGap(a: int, b: int, tick: real)
    requires PRICE_EPSILON < tick
    ensures Product(a as real, tick) <= Product(b as real, tick) + PRICE_EPSILON <==> a <= b
  {
    if a <= b {
      MulMonotone(tick, a as real, b as real);
    } else {
      MulMonotone(tick, b as real + 1.0, a as real);
    }
  }

  lemma GridTicks(n: int, tick: real)
    requires 0.0 < tick
    ensures Product(n as real, tick) / tick == n as real
  {
  }

  /** A number of ticks away from a price, on the grid or not. */
  lemma RoundAway(price: real, sign: real, ticks: real, tick: real)
    requires 0.0 < tick
    ensures RoundToTick(price - Product(sign, Product(ticks, tick)), tick)
         == Product(Round(price / tick - Product(sign, ticks)) as real, tick)
  {
    var moved := price - Product(sign, Product(ticks, tick));
    Quotients(price, sign * ticks, tick);
    assert Product(sign, Product(ticks, tick)) == sign * ticks * tick;
    assert moved / tick == price / tick - Product(sign, ticks);
  }

  lemma Quotients(price: real, n: real, tick: real)
    requires 0.0 < tick
    ensures (price - n * tick) / tick == price / tick - n
  {
    assert price / tick * tick == price;
    assert (price - n * tick) / tick * tick == price - n * tick;
    assert ((price - n * tick) / tick - price / tick + n) * tick == 0.0;
  }

  /** Where an entry fills, in ticks, from the book and the configuration alone:
      the touch or the walked average, moved by the aggression and rounded, but
      never better than the touch. */
  function EntryTicks(c: ExecutionConfig, s: Snapshot, d: Direction, quantity: int): real
    requires 0.0 < s.tickSize && s.Levels(EntrySide(d)) != []
  {
    var levels := s.Levels(EntrySide(d));
    var base, touch, offset :=
      BasePrice(c, levels, quantity) / s.tickSize, levels[0].price / s.tickSize, EntryOffset(c, s);
    if d == Long then MaxReal(Round(base + offset) as real, touch) else MinReal(Round(base - offset) as real, touch)
  }

  lemma EntryTicksAreFilled(c: ExecutionConfig, s: Snapshot, d: Direction, quantity: int)
    requires d != Flat && 0.0 < s.tickSize && 0 < quantity && s.Levels(EntrySide(d)) != []
    ensures var q := Quote(c, s, EntrySide(d), quantity, EntryOffset(c, s));
      q.Some? && q.value.price / s.tickSize == EntryTicks(c, s, d, quantity)
  {
    var levels := s.Levels(EntrySide(d));
    var base, offset := BasePrice(c, levels, quantity), EntryOffset(c, s);
    hide BasePrice, EntryOffset, Round, RoundToTick, Product;
    FillInTicks(base, offset, levels[0].price, s.tickSize);
  }

  lemma FillInTicks(base: real, offset: real, touch: real, tick: real)
    requires 0.0 < tick
    ensures MaxReal(RoundToTick(base + Product(offset, tick), tick), touch) / tick
         == MaxReal(Round(base / tick + offset) as real, touch / tick)
    ensures MinReal(RoundToTick(base - Product(offset, tick), tick), touch) / tick
         == MinReal(Round(base / tick - offset) as real, touch / tick)
  {
    RoundAway(base, -1.0, offset, tick);
    RoundAway(base, 1.0, offset, tick);
    UnitProducts(offset);
    UnitProducts(Product(offset, tick));
    var up, down := Round(base / tick + offset), Round(base / tick - offset);
    hide Round, RoundToTick, Product;
    GridTicks(up, tick);
    GridTicks(down, tick);
    QuotientsCompare(Product(up as real, tick), touch, tick);
    QuotientsCompare(touch, Product(down as real, tick), tick);
  }

  lemma QuotientsCompare(a: real, b: real, tick: real)
    requires 0.0 < tick
    ensures a < b <==> a / tick < b / tick
  {
    var x, y := a / tick, b / tick;
    assert x * tick == a && y * tick == b;
    if x < y {
      assert (y - x) * tick > 0.0;
    } else {
      MulMonotone(tick, y, x);
    }
  }

  /** A position has its stop already hit by the very book it is opened on
      exactly when the touch it would leave by lies at or beyond the rounded stop
      distance from its fill: on any book, on the grid or not. */
  lemma BornStoppedExactlyWhen(c: ExecutionConfig, s: Snapshot, d: Direction, quantity: int)
    requires d != Flat && 0.0 < s.tickSize && 0 < quantity && s.Levels(EntrySide(d)) != []
    ensures var p, fill := OpenPosition(c, s, d, quantity), EntryTicks(c, s, d, quantity);
      p.Some? && (StopHit(p.value, s) <==>
        if d == Long then s.bestBid.price <= Product(Round(fill - c.stopTicks) as real, s.tickSize) + PRICE_EPSILON
        else Product(Round(fill + c.stopTicks) as real, s.tickSize) <= s.bestAsk.price + PRICE_EPSILON)
  {
    hide Quote, EntryOffset, EntryTicks, RoundToTick, Product, Round;
    EntryTicksAreFilled(c, s, d, quantity);
    var fill := Quote(c, s, EntrySide(d), quantity, EntryOffset(c, s)).value.price;
    UnitProducts(c.stopTicks);
    RoundAway(fill, d.Signum() as real, c.stopTicks, s.tickSize);
  }

  /** A two-sided book with its touches on the tick grid. */
  predicate GridBook(s: Snapshot, bid: int, ask: int) {
    && PRICE_EPSILON < s.tickSize && 0.0 <= s.mid
    && s.Levels(Bid) != [] && s.Levels(Ask) != []
    && s.bestBid == s.Levels(Bid)[0] && s.bestAsk == s.Levels(Ask)[0]
    && s.bestBid.price == Product(bid as real, s.tickSize) && s.bestAsk.price == Product(ask as real, s.tickSize)
  }

  /** The touch in ticks, or the walked average when the walk is on. */
  function BaseTicks(c: ExecutionConfig, s: Snapshot, d: Direction, quantity: int, bid: int, ask: int): real
    requires 0.0 < s.tickSize && s.Levels(EntrySide(d)) != []
  {
    if c.useDepthWalk then BasePrice(c, s.Levels(EntrySide(d)), quantity) / s.tickSize
    else if d == Long then ask as real
    else bid as real
  }

  /** On the grid, under any valid configuration: a long is born stopped exactly
      when its fill, rounded to the grid, less the stop distance reaches the bid,
      and a short exactly when it reaches the ask. */
  lemma BornStoppedOnGrid(c: ExecutionConfig, s: Snapshot, d: Direction, quantity: int, bid: int, ask: int)
    requires ValidConfig(c) && d != Flat && 0 < quantity && GridBook(s, bid, ask)
    requires c.useDepthWalk ==> PricesSorted(EntrySide(d), s.Levels(EntrySide(d)))
    ensures var p := OpenPosition(c, s, d, quantity);
      var base, offset := BaseTicks(c, s, d, quantity, bid, ask), EntryOffset(c, s);
      p.Some? && (StopHit(p.value, s) <==>
        if d == Long then bid <= Round(Round(base + offset) as real - c.stopTicks)
        else Round(Round(base - offset) as real + c.stopTicks) <= ask)
  {
    hide EntryOffset, OpenPosition, StopHit, Product, Round, ValidConfig, EntryTicks;
    BornStoppedExactlyWhen(c, s, d, quantity);
    GridEntry(c, s, d, quantity, bid, ask);
    var base, offset := BaseTicks(c, s, d, quantity, bid, ask), EntryOffset(c, s);
    if d == Long {
      GridGap(bid, Round(Round(base + offset) as real - c.stopTicks), s.tickSize);
    } else {
      GridGap(Round(Round(base - offset) as real + c.stopTicks), ask, s.tickSize);
    }
  }

  /** On the grid the touch never cuts off a fill. */
  lemma GridEntry(c: ExecutionConfig, s: Snapshot, d: Direction, quantity: int, bid: int, ask: int)
    requires ValidConfig(c) && d != Flat && 0 < quantity && GridBook(s, bid, ask)
    requires c.useDepthWalk ==> PricesSorted(EntrySide(d), s.Levels(EntrySide(d)))
    ensures var base, offset := BaseTicks(c, s, d, quantity, bid, ask), EntryOffset(c, s);
      EntryTicks(c, s, d, quantity) == Round(if d == Long then base + offset else base - offset) as real
  {
    var levels, touch := s.Levels(EntrySide(d)), if d == Long then ask else bid;
    OffsetNonNegative(c, s);
    BaseNeverBeatsTouch(c, EntrySide(d), levels, quantity);
    GridTicks(touch, s.tickSize);
    hide EntryOffset, BasePrice, Product, Round, ValidConfig;
    var base, offset := BaseTicks(c, s, d, quantity, bid, ask), EntryOffset(c, s);
    assert base == BasePrice(c, levels, quantity) / s.tickSize by {
      TouchIsBase(c, levels, quantity);
    }
    RoundOfInteger(touch);
    if d == Long {
      QuotientMonotone(levels[0].price, BasePrice(c, levels, quantity), s.tickSize);
      RoundMonotone(touch as real, base + offset);
    } else {
      QuotientMonotone(BasePrice(c, levels, quantity), levels[0].price, s.tickSize);
      RoundMonotone(base - offset, touch as real);
    }
  }

  lemma TouchIsBase(c: ExecutionConfig, levels: seq<DepthLevel>, quantity: int)
    requires levels != []
    ensures !c.useDepthWalk ==> BasePrice(c, levels, quantity) == levels[0].price
  {
  }

  lemma OffsetNonNegative(c: ExecutionConfig, s: Snapshot)
    requires ValidConfig(c) && 0.0 < s.tickSize && 0.0 <= s.mid
    ensures 0.0 <= EntryOffset(c, s)
  {
    MulMonotone(s.mid, 0.0, c.entryAggressionBps);
    QuotientMonotone(0.0, s.mid * c.entryAggressionBps * 0.0001, s.tickSize);
  }

  lemma BaseNeverBeatsTouch(c: ExecutionConfig, side: Side, levels: seq<DepthLevel>, quantity: int)
    requires levels != [] && (c.useDepthWalk ==> PricesSorted(side, levels))
    ensures Paid(side, levels[0].price) <= Paid(side, BasePrice(c, levels, quantity))
  {
    var filled := Filled(levels, quantity);
    if c.useDepthWalk && filled > 0 {
      AverageWithinLevels(side, levels, filled);
      PaidQuotient(side, Greedy(levels, filled), filled as real);
      hide Greedy, Filled;
      AtLeast(Paid(side, Greedy(levels, filled)), filled, Paid(side, levels[0].price));
    }
  }

  lemma AtLeast(total: real, n: int, price: real)
    requires 0 < n && Value(n, price) <= total
    ensures price <= total / n as real
  {
    QuotientMonotone(Value(n, price), total, n as real);
    Quotient(price, n as real);
  }

  /** The default configuration (snapshot_quant_v4/config.py:946-947, 988-1046). */
  const SHIPPED := ExecutionConfig(None, 3.0, None, 1.0, false, 6.0, 12.0,
                                   CostConfig(true, 0.0003, 20.0, 20.0, 0.0000297, 0.000001, 0.00025, 0.00003, 0.18))

  /** The default gate (snapshot_quant_v4/config.py:236-241). */
  const SHIPPED_GATE := QualityConfig(4.0, 2, 0, 0.35, 1, 2000.0)

  /** A warm market of normal depth, no gap in sight, in which the snapshot s arrives. */
  predicate QuietMarket(s: Snapshot, v: MarketView) {
    && v.bids == s.raw.bids && v.asks == s.raw.asks && v.spreadTicks == s.spreadTicks
    && v.Warm() && SHIPPED_GATE.minRelativeDepth <= v.relativeDepth
    && (v.msSinceGap.Some? ==> SHIPPED_GATE.gapBlockMs <= v.msSinceGap.value)
  }

  /** With the execution parameters at their defaults, on any book one tick of
      5 paise wide: every position is born stopped exactly from a bid of 15000
      ticks, 750 rupees, up. */
  lemma ShippedStopAtBirthExactlyWhen(s: Snapshot, d: Direction, quantity: int, bid: int)
    requires d != Flat && 0 < quantity && GridBook(s, bid, bid + 1)
    requires s.tickSize == TICK && s.mid == (s.bestBid.price + s.bestAsk.price) * 0.5
    ensures var p := OpenPosition(SHIPPED, s, d, quantity);
      p.Some? && (StopHit(p.value, s) <==> 15000 <= bid)
  {
    ShippedOffset(s, bid);
    hide OpenPosition, StopHit, GridBook, EntryOffset;
    StopAtBirthFromOffset(s, d, quantity, bid);
  }

  lemma StopAtBirthFromOffset(s: Snapshot, d: Direction, quantity: int, bid: int)
    requires d != Flat && 0 < quantity && GridBook(s, bid, bid + 1)
    requires EntryOffset(SHIPPED, s) == (bid as real + 0.5) * 0.05 * 0.006
    ensures var p := OpenPosition(SHIPPED, s, d, quantity);
      p.Some? && (StopHit(p.value, s) <==> 15000 <= bid)
  {
    hide OpenPosition, StopHit, Round, GridBook, EntryOffset;
    ShippedArithmetic(bid, EntryOffset(SHIPPED, s));
    BornStoppedOnGrid(SHIPPED, s, d, quantity, bid, bid + 1);
  }

  lemma ShippedOffset(s: Snapshot, bid: int)
    requires GridBook(s, bid, bid + 1) && s.tickSize == TICK && s.mid == (s.bestBid.price + s.bestAsk.price) * 0.5
    ensures EntryOffset(SHIPPED, s) == (bid as real + 0.5) * 0.05 * 0.006
  {
    assert s.mid == (bid as real + 0.5) * 0.05;
  }

  /** The validator accepts such a book and the gate lets it through, both at
      their defaults, at every price. */
  lemma ShippedStopIsReachable(d: Direction, quantity: int, bid: int, timestampMs: int, view: MarketView)
    requires d != Flat && 0 < quantity && 2 <= bid
    requires QuietMarket(Enriched(TICK, TightBook(bid, timestampMs, 0), None), view)
    ensures var v := Judge(DEFAULTS, TICK, None, TightBook(bid, timestampMs, 0));
      && v.Accepted? && v.snapshot.spreadTicks == 1.0
      && view.bids != [] && view.asks != [] && (forall r :: !Blocks(SHIPPED_GATE, view, r))
      && var p := OpenPosition(SHIPPED, v.snapshot, d, quantity);
      p.Some? && (StopHit(p.value, v.snapshot) <==> 15000 <= bid)
  {
    TightBookIsLetThrough(bid, timestampMs, view);
    TightBookOnGrid(bid, timestampMs);
    ShippedStopAtBirthExactlyWhen(Enriched(TICK, TightBook(bid, timestampMs, 0), None), d, quantity, bid);
    hide Judge, OpenPosition, StopHit, Blocks, TightBook, GridBook;
  }

  lemma TightBookIsLetThrough(bid: int, timestampMs: int, view: MarketView)
    requires 2 <= bid && QuietMarket(Enriched(TICK, TightBook(bid, timestampMs, 0), None), view)
    ensures var raw := TightBook(bid, timestampMs, 0);
      var s := Enriched(TICK, raw, None);
      && Judge(DEFAULTS, TICK, None, raw) == Accepted(s, false) && s.spreadTicks == 1.0
      && forall r :: !Blocks(SHIPPED_GATE, view, r)
  {
    TightBookIsSound(bid, timestampMs, 0);
    SoundBookIsFaultFree(DEFAULTS, TICK, TightBook(bid, timestampMs, 0));
    TightBookIsDeep(bid, timestampMs, view);
    hide StructureFault, SoundBook, ToTicks, UsableOnBothSides;
  }

  lemma TightBookOnGrid(bid: int, timestampMs: int)
    requires 2 <= bid
    ensures GridBook(Enriched(TICK, TightBook(bid, timestampMs, 0), None), bid, bid + 1)
  {
  }

  lemma ShippedArithmetic(bid: int, offset: real)
    requires offset == (bid as real + 0.5) * 0.05 * 0.006
    ensures bid <= Round(Round((bid + 1) as real + offset) as real - 6.0) <==> 15000 <= bid
    ensures Round(Round(bid as real - offset) as real + 6.0) <= bid + 1 <==> 15000 <= bid
  {
    var up, down := Round((bid + 1) as real + offset), Round(bid as real - offset);
    RoundOfInteger(up - 6);
    RoundOfInteger(down + 6);
    assert (up - 6) as real == up as real - 6.0 && (down + 6) as real == down as real + 6.0;
  }

  lemma TightBookIsDeep(bid: int, timestampMs: int, view: MarketView)
    requires 2 <= bid
    requires view.bids == TightBook(bid, timestampMs, 0).bids && view.asks == TightBook(bid, timestampMs, 0).asks
    ensures UsableOnBothSides(SHIPPED_GATE, view) == 2
  {
    TwoUsable(view.bids);
    TwoUsable(view.asks);
  }

  lemma TwoUsable(levels: seq<DepthLevel>)
    requires |levels| == 2 && Usable(SHIPPED_GATE, levels[0]) && Usable(SHIPPED_GATE, levels[1])
    ensures UsableDepth(SHIPPED_GATE, levels) == 2
  {
    UsableDepthUnique(SHIPPED_GATE, levels, UsableDepth(SHIPPED_GATE, levels), 2);
  }

  /** Under every configuration, a book at least as wide as the stop distance
      stops the position it opens, in either direction. */
  lemma WideBookStopsAtBirth(c: ExecutionConfig, s: Snapshot, d: Direction, quantity: int, bid: int, ask: int)
    requires 0 < quantity && d != Flat && 0.0 < s.tickSize && s.Levels(Bid) != [] && s.Levels(Ask) != []
    requires s.bestBid == s.Levels(Bid)[0] && s.bestAsk == s.Levels(Ask)[0]
    requires s.bestBid.price == Product(bid as real, s.tickSize) && s.bestAsk.price == Product(ask as real, s.tickSize)
    requires c.stopTicks <= (ask - bid) as real
    ensures var p := OpenPosition(c, s, d, quantity); p.Some? && StopHit(p.value, s)
  {
    BornStoppedExactlyWhen(c, s, d, quantity);
    hide BasePrice, EntryOffset, OpenPosition, StopHit, Product, Round;
    GridTicks(bid, s.tickSize);
    GridTicks(ask, s.tickSize);
    assert (ask - bid) as real == ask as real - bid as real;
    var fill := EntryTicks(c, s, d, quantity);
    if d == Long {
      RoundMonotone(bid as real, fill - c.stopTicks);
      RoundOfInteger(bid);
      GridMonotone(bid, Round(fill - c.stopTicks), s.tickSize);
    } else {
      RoundMonotone(fill + c.stopTicks, ask as real);
      RoundOfInteger(ask);
      GridMonotone(Round(fill + c.stopTicks), ask, s.tickSize);
    }
  }

  lemma GridMonotone(a: int, b: int, tick: real)
    requires 0.0 < tick && a <= b
    ensures Product(a as real, tick) <= Product(b as real, tick) + PRICE_EPSILON
  {
    MulMonotone(tick, a as real, b as real);
  }
}
