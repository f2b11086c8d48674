/** The Bollinger band columns get_fund_data_v2 adds (MB, STD, UB, LB) and the
    per-row signal column computed by `get_signal`. */
module Bands {
  import opened Wrappers

  /** Rolling window length N. */
  const Window: nat := 20
  /** Band multiplier K. */
  const Width: real := 2.0

  /** `x * y`, kept behind a function so that facts about products can be
      stated once and reused. */
  function Mul(x: real, y: real): real {
    x * y
  }

  /** `x²`. */
  function Sq(x: real): real {
    x * x
  }

  /** A product of two positive reals is positive. */
  lemma MulPos(a: real, b: real)
    requires a > 0.0 && b > 0.0
    ensures Mul(a, b) > 0.0
  {
  }

  /** A square is non-negative, and positive away from zero. */
  lemma SquareSign(t: real)
    ensures Sq(t) >= 0.0
    ensures t != 0.0 ==> Sq(t) > 0.0
  {
    if t > 0.0 {
      MulPos(t, t);
      assert Mul(t, t) == Sq(t);
    } else if t < 0.0 {
      MulPos(-t, -t);
      assert Mul(-t, -t) == Sq(t);
    } else {
      assert Sq(t) == Sq(0.0) == 0.0;
    }
  }

  /** `b² − a² = (b − a)(b + a)`. */
  lemma DiffOfSquares(a: real, b: real)
    ensures Sq(b) - Sq(a) == Mul(b - a, b + a)
  {
  }

  /** `(k·t)² = k²·t²`. */
  lemma SqScaled(t: real, k: real)
    ensures Sq(k * t) == Sq(k) * Sq(t)
  {
  }

  /** Squares are strictly monotone on the non-negative reals. */
  lemma SquareLess(a: real, b: real)
    requires 0.0 <= a < b
    ensures Sq(a) < Sq(b)
  {
    DiffOfSquares(a, b);
    MulPos(b - a, b + a);
  }

  /** Sum of a sequence, accumulated from the front (the last element added last). */
  function Sum(s: seq<real>): real {
    if s == [] then 0.0 else Sum(s[..|s| - 1]) + s[|s| - 1]
  }

  /** Arithmetic mean (`rolling(...).mean()` over one window). */
  function Mean(w: seq<real>): real
    requires |w| > 0
  {
    Sum(w) / (|w| as real)
  }

  /** Sum of squared deviations of the elements of `w` from `m`. */
  function SquaredDeviations(w: seq<real>, m: real): (r: real)
    ensures r >= 0.0
  {
    if w == [] then 0.0
    else
      SquareSign(w[|w| - 1] - m);
      SquaredDeviations(w[..|w| - 1], m) + Sq(w[|w| - 1] - m)
  }

  /** Sample variance with divisor `|w| - 1`, the pandas default (ddof = 1). */
  function SampleVariance(w: seq<real>): (r: real)
    requires |w| >= 2
    ensures r >= 0.0
  {
    SquaredDeviations(w, Mean(w)) / ((|w| - 1) as real)
  }

  /** `sqrt` returns the non-negative square root of every non-negative real.
      The square root is the one numeric primitive the model takes as a parameter. */
  ghost predicate IsSqrt(sqrt: real -> real) {
    forall x: real | 0.0 <= x :: 0.0 <= sqrt(x) && Sq(sqrt(x)) == x
  }

  /** The values of the MB, STD, UB and LB columns on one row. */
  datatype Band = Band(mb: real, std: real, ub: real, lb: real)

  /** The `信号` column: 卖出, 买入, 持有, 数据不足. */
  datatype Signal = Sell | Buy | Hold | InsufficientData

  /** One row of the band columns: no band (NaN in pandas) or a band, and the signal. */
  datatype BandPoint = BandPoint(band: Option<Band>, signal: Signal)

  /** The text the `信号` column holds. */
  function Label(s: Signal): string {
    match s
    case Sell => "卖出"
    case Buy => "买入"
    case Hold => "持有"
    case InsufficientData => "数据不足"
  }

  /** The four 信号 texts differ in their first character, so the column's text
      determines the signal. */
  lemma LabelsDistinct(s: Signal, t: Signal)
    ensures Label(s) == Label(t) <==> s == t
  {
    if s != t {
      assert Label(s)[0] != Label(t)[0];
    }
  }

  /** The strict three-way comparison of a value with its bands, shared by
      `get_signal` (lines 82-87) and the detail page's advice (lines 452-460). */
  function Classify(value: real, ub: real, lb: real): Signal {
    if value > ub then Sell
    else if value < lb then Buy
    else Hold
  }

  /** `get_signal`: rows without a band are "数据不足". */
  function RowSignal(value: real, band: Option<Band>): Signal {
    match band
    case None => InsufficientData
    case Some(b) => Classify(value, b.ub, b.lb)
  }

  /** The window of `Window` values ending at row `i`. */
  function WindowEndingAt(values: seq<real>, i: nat): (w: seq<real>)
    requires Window - 1 <= i < |values|
    ensures |w| == Window
  {
    values[i - (Window - 1)..i + 1]
  }

  /** The band of row `i`, for `i >= Window - 1`. */
  function BandAt(values: seq<real>, i: nat, sqrt: real -> real): Band
    requires Window - 1 <= i < |values|
  {
    var w := WindowEndingAt(values, i);
    var mb := Mean(w);
    var std := sqrt(SampleVariance(w));
    Band(mb, std, mb + Width * std, mb - Width * std)
  }

  /** Row `i` of the band and signal columns. */
  function PointAt(values: seq<real>, i: nat, sqrt: real -> real): BandPoint
    requires i < |values|
  {
    var band := if i < Window - 1 then None else Some(BandAt(values, i, sqrt));
    BandPoint(band, RowSignal(values[i], band))
  }

  /** Lines 73-89: fill the MB/STD/UB/LB columns row by row (NaN for the first
      `Window - 1` rows) and then the signal column. */
  method ComputeBands(values: seq<real>, sqrt: real -> real) returns (points: seq<BandPoint>)
    ensures |points| == |values|
    ensures forall i | 0 <= i < |values| :: points[i] == PointAt(values, i, sqrt)
  {
    points := [];
    for i := 0 to |values|
      invariant |points| == i
      invariant forall k | 0 <= k < i :: points[k] == PointAt(values, k, sqrt)
    {
      var band: Option<Band> := None;
      if i >= Window - 1 {
        var w := values[i - (Window - 1)..i + 1];
        var mb := Mean(w);
        var std := sqrt(SampleVariance(w));
        band := Some(Band(mb, std, mb + Width * std, mb - Width * std));
      }
      points := points + [BandPoint(band, RowSignal(values[i], band))];
    }
  }

  /** Rows before the first full window have no band and the signal "数据不足";
      from row `Window - 1` on, MB is the mean of the window ending at the row,
      STD is the non-negative square root of its sample variance, UB = MB + 2·STD,
      LB = MB − 2·STD, so LB ≤ MB ≤ UB, and the signal compares the row's value
      with UB and LB. */
  lemma PointAtMeaning(values: seq<real>, i: nat, sqrt: real -> real)
    requires IsSqrt(sqrt) && i < |values|
    ensures PointAt(values, i, sqrt).band.None? <==> i < Window - 1
    ensures i < Window - 1 ==> PointAt(values, i, sqrt).signal == InsufficientData
    ensures i >= Window - 1 ==>
      var w, b := WindowEndingAt(values, i), PointAt(values, i, sqrt).band.value;
      && b.mb == Mean(w)
      && 0.0 <= b.std && Sq(b.std) == SampleVariance(w)
      && b.ub == b.mb + 2.0 * b.std && b.lb == b.mb - 2.0 * b.std
      && b.lb <= b.mb <= b.ub
      && PointAt(values, i, sqrt).signal == Classify(values[i], b.ub, b.lb)
  {
    if i >= Window - 1 {
      var w := WindowEndingAt(values, i);
      assert 0.0 <= SampleVariance(w);
    }
  }

  /** The signal is strictly three-way: "卖出" exactly above UB, "买入" exactly
      below LB, "持有" on or between the bands, so a value equal to a band holds. */
  lemma ClassifyStrict(value: real, ub: real, lb: real)
    requires lb <= ub
    ensures Classify(value, ub, lb) == Sell <==> value > ub
    ensures Classify(value, ub, lb) == Buy <==> value < lb
    ensures Classify(value, ub, lb) == Hold <==> lb <= value <= ub
    ensures value == ub || value == lb ==> Classify(value, ub, lb) == Hold
  {
  }

  /** The sum of `|w|` copies of `c`. */
  lemma {:induction false} SumOfConstant(w: seq<real>, c: real)
    requires forall k | 0 <= k < |w| :: w[k] == c
    ensures Sum(w) == (|w| as real) * c
  {
    if w != [] {
      SumOfConstant(w[..|w| - 1], c);
    }
  }

  /** Squared deviations of `|w|` copies of `c` from `m`. */
  lemma {:induction false} SquaredDeviationsOfConstant(w: seq<real>, c: real, m: real)
    requires forall k | 0 <= k < |w| :: w[k] == c
    ensures SquaredDeviations(w, m) == (|w| as real) * Sq(c - m)
  {
    if w != [] {
      SquaredDeviationsOfConstant(w[..|w| - 1], c, m);
    }
  }

  /** A constant window has STD = 0, so UB = LB = MB = the constant and the signal
      of a row holding that constant is "持有", although the comparison with the
      collapsed band is made with strict inequalities. */
  lemma FlatWindowHolds(values: seq<real>, i: nat, sqrt: real -> real, c: real)
    requires IsSqrt(sqrt) && Window - 1 <= i < |values|
    requires forall k | 0 <= k < Window :: WindowEndingAt(values, i)[k] == c
    ensures BandAt(values, i, sqrt) == Band(c, 0.0, c, c)
    ensures PointAt(values, i, sqrt).signal == Hold
  {
    var w := WindowEndingAt(values, i);
    SumOfConstant(w, c);
    assert Mean(w) == c;
    SquaredDeviationsOfConstant(w, c, c);
    var v := SampleVariance(w);
    assert v == 0.0;
    var std := sqrt(v);
    SquareSign(std);
    assert std == 0.0;
    assert BandAt(values, i, sqrt) == Band(c, std, c + Width * std, c - Width * std);
  }

  /** For `s >= 0`: `d > 2s` exactly when `d` is positive and `d² > 4s²`. */
  lemma AboveTwiceRoot(d: real, s: real)
    requires 0.0 <= s
    ensures d > 2.0 * s <==> d > 0.0 && Sq(d) > 4.0 * Sq(s)
  {
    SqScaled(s, 2.0);
    if d > 2.0 * s {
      SquareLess(2.0 * s, d);
    } else if 0.0 < d < 2.0 * s {
      SquareLess(d, 2.0 * s);
    }
  }

  /** The signal decided without a square root: with `d` the distance of the
      row's value from MB and `v` the window's sample variance, "卖出" exactly
      when `d > 0` and `d² > 4v`, "买入" exactly when `d < 0` and `d² > 4v`,
      and "持有" exactly when `d² <= 4v`. */
  lemma SignalThroughVariance(values: seq<real>, i: nat, sqrt: real -> real)
    requires IsSqrt(sqrt) && Window - 1 <= i < |values|
    ensures
      var w := WindowEndingAt(values, i);
      var d, v := values[i] - Mean(w), SampleVariance(w);
      && (PointAt(values, i, sqrt).signal == Sell <==> d > 0.0 && Sq(d) > 4.0 * v)
      && (PointAt(values, i, sqrt).signal == Buy <==> d < 0.0 && Sq(d) > 4.0 * v)
      && (PointAt(values, i, sqrt).signal == Hold <==> Sq(d) <= 4.0 * v)
  {
    var w := WindowEndingAt(values, i);
    var b := BandAt(values, i, sqrt);
    var d, v := values[i] - Mean(w), SampleVariance(w);
    PointAtMeaning(values, i, sqrt);
    AboveTwiceRoot(d, b.std);
    AboveTwiceRoot(-d, b.std);
    SqScaled(d, -1.0);
    assert -1.0 * d == -d;
  }

  /** After a window whose first `Window - 1` values equal `c`, a last value `x`
      gives MB = c + (x − c)/20 and sample variance (x − c)²/20, and then the row
      signals "卖出" exactly when x > c, "买入" exactly when x < c, and "持有"
      exactly when x = c: any move out of a flat window crosses the band. */
  lemma JumpAfterFlat(values: seq<real>, i: nat, sqrt: real -> real, c: real)
    requires IsSqrt(sqrt) && Window - 1 <= i < |values|
    requires forall k | 0 <= k < Window - 1 :: WindowEndingAt(values, i)[k] == c
    ensures
      var w, x := WindowEndingAt(values, i), values[i];
      Mean(w) == c + (x - c) / 20.0 && SampleVariance(w) == Sq(x - c) / 20.0
    ensures PointAt(values, i, sqrt).signal == Sell <==> values[i] > c
    ensures PointAt(values, i, sqrt).signal == Buy <==> values[i] < c
    ensures PointAt(values, i, sqrt).signal == Hold <==> values[i] == c
  {
    var w, x := WindowEndingAt(values, i), values[i];
    var flat := w[..Window - 1];
    assert w == flat + [x];
    SumOfConstant(flat, c);
    assert Sum(w) == 19.0 * c + x;
    var e := x - c;
    var m := Mean(w);
    assert m == c + e / 20.0;
    SquaredDeviationsOfConstant(flat, c, m);
    assert c - m == -0.05 * e;
    assert x - m == 0.95 * e;
    SqScaled(e, -0.05);
    SqScaled(e, 0.95);
    assert SquaredDeviations(w, m) == 19.0 * Sq(c - m) + Sq(x - m);
    assert SquaredDeviations(w, m) == 0.95 * Sq(e);
    assert SampleVariance(w) == Sq(e) / 20.0;
    SignalThroughVariance(values, i, sqrt);
    SquareSign(e);
    assert Sq(x - m) == 0.9025 * Sq(e);
  }

  /** The scenario of twenty values 1.00 followed by 1.10: at row 20 the band
      window is nineteen 1.00 values and 1.10, MB = 1.005, and the row signals
      "卖出". */
  lemma RiseAfterTwentyFlatSells(sqrt: real -> real)
    requires IsSqrt(sqrt)
    ensures
      var values := seq(20, _ => 1.0) + [1.1];
      Mean(WindowEndingAt(values, 20)) == 1.005 && PointAt(values, 20, sqrt).signal == Sell
  {
    var values := seq(20, _ => 1.0) + [1.1];
    JumpAfterFlat(values, 20, sqrt, 1.0);
  }
}
