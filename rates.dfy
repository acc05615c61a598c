/**
 * The counters and ratios of the rebalance statistics. Java computes each
 * ratio as `(double) up / down`; here a ratio is kept exact, together with
 * the three special values a division of two `int`s can produce (an
 * infinity of either sign when dividing by zero, NaN for `0 / 0`) and the
 * sign of a zero quotient, so that `Double.compare` can be stated.
 */
module Rates {
  import opened Wrappers

  /** Java's `/` on `int` by a positive divisor: it truncates toward zero. */
  function JavaDiv(x: int, d: int): (q: int)
    requires d > 0
    ensures x >= 0 ==> 0 <= q && q * d <= x < q * d + d
    ensures x < 0 ==> q <= 0 && -(q * d) <= -x < -(q * d) + d
  {
    if x >= 0 then x / d else -((-x) / d)
  }

  datatype Rate = NegInf | Finite(value: real, negZero: bool) | PosInf | NaN

  /** `(double) up / down`, without rounding. */
  function Quotient(up: int, down: int): (r: Rate)
    ensures r.Finite? <==> down != 0
    ensures r.Finite? ==> r.value * (down as real) == up as real
    ensures r == NaN <==> up == 0 && down == 0
  {
    if down == 0 then (if up > 0 then PosInf else if up < 0 then NegInf else NaN)
    else Finite(up as real / down as real, up == 0 && down < 0)
  }

  function Rank(a: Rate): int
  {
    match a
    case NegInf => 0
    case Finite(_, _) => 1
    case PosInf => 2
    case NaN => 3
  }

  /**
   * `Double.compare`: negative infinity, the finite values (with -0.0 below
   * 0.0), positive infinity, and NaN last, equal only to itself.
   */
  function Compare(a: Rate, b: Rate): int
  {
    if Rank(a) != Rank(b) then (if Rank(a) < Rank(b) then -1 else 1)
    else if !a.Finite? then 0
    else if a.value != b.value then (if a.value < b.value then -1 else 1)
    else if a.negZero == b.negZero then 0
    else if a.negZero then -1 else 1
  }

  /** `Double.compare` is a total order on rates. */
  lemma CompareOrder(a: Rate, b: Rate, c: Rate)
    ensures Compare(a, b) == 0 <==> a == b
    ensures Compare(a, b) == -Compare(b, a)
    ensures Compare(a, b) < 0 && Compare(b, c) < 0 ==> Compare(a, c) < 0
  {
  }

  /** A pick or win figure: the numerator, the denominator and the ratio last computed from them. */
  datatype Count = Count(up: int, down: int, rate: Rate)

  /** `CountResponseDto.builder().down(0).up(0).rate(0D)`. */
  const Zero: Count := Count(0, 0, Finite(0.0, false))

  /**
   * `RebalanceResponseDto`: the kind ("class" or "card"), the class or card
   * id, the card name where there is one, the two figures, and
   * `winWhenPick` (`null` until it is computed).
   */
  datatype Rebalance = Rebalance(kind: string, id: int, name: Option<string>, pick: Count, win: Count,
                                 winWhenPick: Option<Rate>)

  /** The last step of both services: `winWhenPick = (double) win.up / pick.up`. */
  function WithWinWhenPick(rs: seq<Rebalance>): (r: seq<Rebalance>)
    ensures |r| == |rs|
  {
    seq(|rs|, i requires 0 <= i < |rs| => rs[i].(winWhenPick := Some(Quotient(rs[i].win.up, rs[i].pick.up))))
  }

  method SetWinWhenPick(rs: seq<Rebalance>) returns (r: seq<Rebalance>)
    ensures r == WithWinWhenPick(rs)
  {
    r := [];
    var i := 0;
    while i < |rs|
      invariant 0 <= i <= |rs| && |r| == i
      invariant forall j :: 0 <= j < i ==> r[j] == WithWinWhenPick(rs)[j]
    {
      var x := rs[i];
      r := r + [x.(winWhenPick := Some(Quotient(x.win.up, x.pick.up)))];
      i := i + 1;
    }
  }
}
