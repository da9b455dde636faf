/** Small vocabulary shared by every component: options, signs, clamps, sums
    over sequences and the "last n samples" of a history. */
module Prelude {

  datatype Option<+T> = None | Some(value: T)

  function Abs(x: real): real {
    if x < 0.0 then -x else x
  }

  function MinInt(a: int, b: int): int {
    if a < b then a else b
  }

  function MaxInt(a: int, b: int): int {
    if a < b then b else a
  }

  function MaxReal(a: real, b: real): real {
    if a < b then b else a
  }

  function MinReal(a: real, b: real): real {
    if b < a then b else a
  }

  /** The sign function of the engine with a zero dead band. */
  function Sign(x: real): int {
    if x > 0.0 then 1 else if x < 0.0 then -1 else 0
  }

  function Clamp(x: real, low: real, high: real): real {
    if x < low then low else if x > high then high else x
  }

  /** Clamp into the canonical feature range [-1, 1]. */
  function ClampUnit(x: real): real {
    Clamp(x, -1.0, 1.0)
  }

  const EPSILON: real := 0.000000000001

  /** Division that reports zero when the denominator is negligible. */
  function SafeDiv(numerator: real, denominator: real): real {
    if -EPSILON < denominator < EPSILON then 0.0 else numerator / denominator
  }

  /** Multiplication under a name, for proofs that treat it as a black box. */
  function Product(x: real, y: real): real {
    x * y
  }

  lemma MulMonotone(s: real, a: real, b: real)
    requires 0.0 <= s && a <= b
    ensures s * a <= s * b
  {
    assert s * (b - a) >= 0.0;
  }

  function Sum(s: seq<real>): real {
    if s == [] then 0.0 else Sum(s[..|s| - 1]) + s[|s| - 1]
  }

  lemma {:induction false} SumAppend(s: seq<real>, x: real)
    ensures Sum(s + [x]) == Sum(s) + x
  {
    assert (s + [x])[..|s|] == s;
  }

  lemma {:induction false} SumConcat(s: seq<real>, t: seq<real>)
    ensures Sum(s + t) == Sum(s) + Sum(t)
  {
    if t == [] {
      assert s + t == s;
    } else {
      var t' := t[..|t| - 1];
      SumConcat(s, t');
      assert (s + t)[..|s + t| - 1] == s + t';
    }
  }

  lemma {:induction false} SumDropFirst(s: seq<real>)
    requires s != []
    ensures Sum(s[1..]) == Sum(s) - s[0]
  {
    SumConcat([s[0]], s[1..]);
    assert [s[0]] + s[1..] == s;
    SumAppend([], s[0]);
    assert [] + [s[0]] == [s[0]];
  }

  /** The part of a history that a window of n samples still remembers. */
  function LastN<T>(s: seq<T>, n: nat): (r: seq<T>)
    ensures |r| == MinInt(|s|, n)
  {
    if |s| <= n then s else s[|s| - n..]
  }

  /** A window only ever needs its own content to move on. */
  lemma LastNAppend<T>(s: seq<T>, x: T, n: nat)
    requires n > 0
    ensures LastN(LastN(s, n) + [x], n) == LastN(s + [x], n)
  {
  }

  function Mapped<T, U>(s: seq<T>, f: T -> U): (r: seq<U>)
    ensures |r| == |s|
    ensures forall k :: 0 <= k < |s| ==> r[k] == f(s[k])
  {
    seq(|s|, k requires 0 <= k < |s| => f(s[k]))
  }
}
