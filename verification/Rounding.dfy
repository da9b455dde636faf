/** Half-to-even rounding and the tick grid
    (snapshot_quant_v4/utils/math_utils.py), over exact reals. */
module Rounding {
  import opened Prelude

  /** The integer nearest to x; a tie goes to the even neighbour. */
  function Round(x: real): int {
    var low := x.Floor;
    var rest := x - low as real;
    if rest < 0.5 then low
    else if rest > 0.5 then low + 1
    else if low % 2 == 0 then low
    else low + 1
  }

  /** What makes the choice of Round the only possible one. */
  predicate IsNearestEven(x: real, n: int) {
    && -0.5 <= x - n as real <= 0.5
    && (Abs(x - n as real) == 0.5 ==> n % 2 == 0)
  }

  lemma RoundIsNearestEven(x: real, n: int)
    ensures IsNearestEven(x, n) <==> n == Round(x)
  {
  }

  /** Rounding treats gains and losses alike, so price reflection is exact. */
  lemma RoundIsOdd(x: real)
    ensures Round(-x) == -Round(x)
  {
    RoundIsNearestEven(x, Round(x));
    assert Abs(-x - (-Round(x)) as real) == Abs(x - Round(x) as real);
    RoundIsNearestEven(-x, -Round(x));
  }

  lemma RoundMonotone(x: real, y: real)
    requires x <= y
    ensures Round(x) <= Round(y)
  {
    RoundIsNearestEven(x, Round(x));
    RoundIsNearestEven(y, Round(y));
  }

  lemma RoundOfInteger(n: int)
    ensures Round(n as real) == n
  {
  }

  lemma RoundShift(x: real, n: int)
    requires n % 2 == 0
    ensures Round(x + n as real) == Round(x) + n
  {
    RoundIsNearestEven(x, Round(x));
    RoundIsNearestEven(x + n as real, Round(x) + n);
  }

  /** The multiple of the tick nearest to a price. */
  function RoundToTick(price: real, tick: real): real
    requires 0.0 < tick
  {
    Round(price / tick) as real * tick
  }

  /** No multiple of the tick is nearer. */
  lemma RoundToTickIsNearest(price: real, tick: real)
    requires 0.0 < tick
    ensures Abs(price - RoundToTick(price, tick)) <= tick / 2.0
  {
    var q, n := price / tick, Round(price / tick);
    RoundIsNearestEven(q, n);
    WithinHalfATick(tick, q - n as real);
    Apart(price, tick, q, n as real);
    assert RoundToTick(price, tick) == n as real * tick;
  }

  lemma RoundToTickMonotone(p: real, q: real, tick: real)
    requires 0.0 < tick && p <= q
    ensures RoundToTick(p, tick) <= RoundToTick(q, tick)
  {
    QuotientMonotone(p, q, tick);
    RoundMonotone(p / tick, q / tick);
    MulMonotone(tick, Round(p / tick) as real, Round(q / tick) as real);
  }

  lemma QuotientMonotone(p: real, q: real, tick: real)
    requires 0.0 < tick && p <= q
    ensures p / tick <= q / tick
  {
    var x, y := p / tick, q / tick;
    assert x * tick == p && y * tick == q;
    assert (y - x) * tick >= 0.0;
  }

  lemma Apart(price: real, tick: real, q: real, n: real)
    requires 0.0 < tick && q == price / tick
    ensures tick * (q - n) == price - n * tick
  {
    assert tick * q == price;
  }

  lemma WithinHalfATick(tick: real, rest: real)
    requires 0.0 < tick && -0.5 <= rest <= 0.5
    ensures Abs(tick * rest) <= tick / 2.0
  {
    MulMonotone(tick, rest, 0.5);
    MulMonotone(tick, -0.5, rest);
  }

  /** On the grid up to the tolerance of the validator. */
  predicate IsTickAligned(price: real, tick: real)
    requires 0.0 < tick
  {
    var ticks := price / tick;
    Abs(ticks - Round(ticks) as real) <= 0.000001
  }

  /** Within a millionth of a tick of so many ticks. */
  predicate Near(price: real, tick: real, n: int)
    requires 0.0 < tick
  {
    -0.000001 <= price / tick - n as real <= 0.000001
  }

  /** Aligned is what is near some whole number of ticks. */
  lemma AlignedExactlyWhen(price: real, tick: real)
    requires 0.0 < tick
    ensures IsTickAligned(price, tick) <==> exists n :: Near(price, tick, n)
  {
    if IsTickAligned(price, tick) {
      assert Near(price, tick, Round(price / tick));
    }
    if n :| Near(price, tick, n) {
      RoundIsNearestEven(price / tick, n);
    }
  }

  function ToTicks(difference: real, tick: real): real {
    SafeDiv(difference, tick)
  }
}
