/** The indicators of render_detail_page (lines 369-460): the current value and
    rate, the band defaults, the period change, the maximum drawdown, %B and the
    advice signal. */
module Detail {
  import opened Wrappers
  import opened Text
  import opened Schema
  import opened Cleaning
  import opened Bands
  import opened FundData
  import opened Codes

  /** Key markers of the realtime estimate row. */
  const EstimateMarker := "估算值"
  const RateMarker := "估算增长率"
  /** The rate shown when no realtime rate is available. */
  const DefaultRate := "0.00%"
  /** Where the current value comes from: the last history row's date, or the
      realtime estimate (shown as "实时估算"). */
  datatype Stamp = HistoryDate(date: int) | RealtimeEstimate

  /** The current value, its rate text and its stamp. */
  datatype Quote = Quote(value: real, rate: string, stamp: Stamp)

  /** Key `j` is the first key of the realtime row holding `marker`. */
  predicate FirstWith<V>(entries: seq<(string, V)>, marker: string, j: nat) {
    && j < |entries|
    && Contains(entries[j].0, marker)
    && forall i | 0 <= i < j :: !Contains(entries[i].0, marker)
  }

  /** The first key of the realtime row holding `marker`, in key order
      (`next((k for k in rt_data.keys() if marker in k), None)`). */
  function FirstKeyWith<V>(entries: seq<(string, V)>, marker: string): (r: Option<nat>)
    ensures r.Some? ==> r.value < |entries| && Contains(entries[r.value].0, marker)
    ensures r.Some? ==> forall j | 0 <= j < r.value :: !Contains(entries[j].0, marker)
    ensures r.None? ==> forall j | 0 <= j < |entries| :: !Contains(entries[j].0, marker)
  {
    if entries == [] then None
    else if Contains(entries[0].0, marker) then Some(0)
    else match FirstKeyWith(entries[1..], marker)
      case None => None
      case Some(j) => Some(j + 1)
  }

  /** Lines 388-404. Without realtime data the last history row is shown with
      rate "0.00%". With it, the estimate replaces the value when an estimate key
      exists, the rate text (with every '%' removed and one appended) replaces
      the rate when a rate key exists, and the stamp becomes the realtime one;
      but when the estimate does not parse, `float()` raises and the bare
      `except` leaves all three at their history defaults. `toFloat` models
      `float()` (None when it raises) and `toText` models `str()`. */
  function CurrentQuote<V>(last: Obs, rt: Option<seq<(string, V)>>,
                           toFloat: V -> Option<real>, toText: V -> string): Quote
  {
    var fallback := Quote(last.value, DefaultRate, HistoryDate(last.date));
    if rt.None? || |rt.value| == 0 then fallback
    else
      var kv := FirstKeyWith(rt.value, EstimateMarker);
      var kr := FirstKeyWith(rt.value, RateMarker);
      if kv.Some? && toFloat(rt.value[kv.value].1).None? then fallback
      else
        var value := if kv.Some? then toFloat(rt.value[kv.value].1).value else last.value;
        var rate := if kr.Some? then RemovePercent(toText(rt.value[kr.value].1)) + "%" else DefaultRate;
        Quote(value, rate, RealtimeEstimate)
  }

  /** Lines 407-408: UB and LB of the last row, or 0 for both when the frame has
      no band columns. */
  function BandDefaults(h: History): (r: (real, real))
    requires h.Valid() && |h.rows| > 0
  {
    if h.bands.None? then (0.0, 0.0)
    else match h.bands.value[|h.rows| - 1].band
      case Some(b) => (b.ub, b.lb)
      case None => (0.0, 0.0)
  }

  /** `df.tail(days)`: the last `days` values, or all of them. */
  function Tail(values: seq<real>, days: nat): (r: seq<real>)
    ensures |r| == if days < |values| then days else |values|
    ensures r == values[|values| - |r|..]
  {
    if days < |values| then values[|values| - days..] else values
  }

  /** Lines 413-417: the change over the period in percent; 0 for an empty
      period. A zero start value makes the float division non-finite, which is
      reported as None. */
  function PeriodChange(period: seq<real>): (r: Option<real>)
    ensures r.None? <==> |period| > 0 && period[0] == 0.0
  {
    if |period| == 0 then Some(0.0)
    else if period[0] == 0.0 then None
    else Some((period[|period| - 1] - period[0]) / period[0] * 100.0)
  }

  function Max(a: real, b: real): real {
    if a >= b then a else b
  }

  /** `cummax()`: element `i` is the largest of the first `i + 1` values. */
  function RunningMax(s: seq<real>): (r: seq<real>)
    ensures |r| == |s|
    ensures forall i, j | 0 <= j <= i < |s| :: s[j] <= r[i]
  {
    if s == [] then []
    else
      var p := RunningMax(s[..|s| - 1]);
      var top := if p == [] then s[|s| - 1] else Max(p[|p| - 1], s[|s| - 1]);
      assert p == [] ==> |s| == 1;
      p + [top]
  }

  /** The smallest element of a non-empty sequence (`min()`). */
  function MinOf(s: seq<real>): (m: real)
    requires |s| > 0
    ensures forall i | 0 <= i < |s| :: m <= s[i]
    ensures exists i | 0 <= i < |s| :: m == s[i]
  {
    if |s| == 1 then s[0]
    else
      var rest := MinOf(s[1..]);
      if s[0] <= rest then s[0] else rest
  }

  /** Lines 420-422: the largest fall from a running peak, in percent. An empty
      period (min of nothing is NaN) or a zero running maximum (a non-finite
      drawdown) is reported as None. */
  function MaxDrawdown(period: seq<real>): Option<real> {
    DrawdownBelow(period, RunningMax(period))
  }

  /** The smallest drawdown below the given peaks, in percent. */
  function DrawdownBelow(period: seq<real>, peaks: seq<real>): Option<real>
    requires |peaks| == |period|
  {
    if |period| == 0 || 0.0 in peaks then None
    else Some(MinOf(Drawdowns(period, peaks)) * 100.0)
  }

  /** `(values - roll_max) / roll_max`, element by element. */
  function Drawdowns(period: seq<real>, peaks: seq<real>): (r: seq<real>)
    requires |peaks| == |period|
    requires 0.0 !in peaks
    ensures |r| == |period|
    ensures forall i | 0 <= i < |period| :: r[i] == (period[i] - peaks[i]) / peaks[i]
  {
    seq(|period|, i requires 0 <= i < |period| => (period[i] - peaks[i]) / peaks[i])
  }

  /** Lines 425-428: %B, or 0.5 when the bands coincide. */
  function PercentB(value: real, ub: real, lb: real): real {
    if ub != lb then (value - lb) / (ub - lb) else 0.5
  }

  /** The dashboard figures of lines 430-460. */
  datatype Metrics = Metrics(quote: Quote, ub: real, lb: real, periodDays: nat,
                             periodChange: Option<real>, maxDrawdown: Option<real>,
                             percentB: real, signal: Signal)

  /** What the page shows. */
  datatype DetailView =
    | CodeLengthWarning          // "请输入6位基金代码" (lines 369-371)
    | FetchFailed(e: FetchError) // the error of get_fund_data_v2 (lines 377-379)
    | NoHistory                  // "未获取到历史数据" (lines 381-383)
    | Dashboard(m: Metrics)

  /** render_detail_page from the code check to the advice. `fetched` and `rt`
      are what get_fund_data_v2 returned for `code`; `days` is the slider value. */
  function DetailPage<V>(code: string, fetched: Result<History, FetchError>, rt: Option<seq<(string, V)>>,
                         days: nat, toFloat: V -> Option<real>, toText: V -> string): DetailView
    requires fetched.Ok? ==> fetched.value.Valid()
  {
    if |code| != CodeLength then CodeLengthWarning
    else match fetched
      case Err(e) => FetchFailed(e)
      case Ok(h) =>
        if |h.rows| == 0 then NoHistory
        else
          var quote := CurrentQuote(h.rows[|h.rows| - 1], rt, toFloat, toText);
          var (ub, lb) := BandDefaults(h);
          var period := Tail(h.Values(), days);
          Dashboard(Metrics(quote, ub, lb, |period|, PeriodChange(period), MaxDrawdown(period),
                            PercentB(quote.value, ub, lb), Classify(quote.value, ub, lb)))
  }

  /** The sign of a product with a positive factor is the sign of the other factor. */
  lemma MulSign(a: real, b: real)
    requires b > 0.0
    ensures Mul(a, b) > 0.0 <==> a > 0.0
    ensures Mul(a, b) == 0.0 <==> a == 0.0
  {
    if a > 0.0 {
      MulPos(a, b);
    } else if a < 0.0 {
      MulPos(-a, b);
      assert Mul(-a, b) == -Mul(a, b);
    }
  }

  /** One drawdown of a positive value below a positive peak lies in (-1, 0],
      and is 0 exactly at the peak. */
  lemma DrawdownOfOne(x: real, p: real)
    requires 0.0 < x <= p
    ensures -1.0 < (x - p) / p <= 0.0
    ensures (x - p) / p == 0.0 <==> x == p
  {
    var q := (x - p) / p;
    assert Mul(q, p) == x - p;
    assert Mul(q + 1.0, p) == Mul(q, p) + p;
    MulSign(q, p);
    MulSign(q + 1.0, p);
  }

  /** For positive values every running peak is positive and no smaller than
      the value under it. */
  lemma PeaksPositive(period: seq<real>)
    requires forall i | 0 <= i < |period| :: period[i] > 0.0
    ensures forall i | 0 <= i < |period| :: 0.0 < period[i] <= RunningMax(period)[i]
    ensures 0.0 !in RunningMax(period)
  {
    var peaks := RunningMax(period);
    assert forall i | 0 <= i < |period| :: period[i] <= peaks[i];
  }

  /** Below positive peaks, every drawdown of a positive value lies in (-1, 0],
      being 0 exactly where the value is at its peak. */
  lemma DrawdownsInRange(period: seq<real>, peaks: seq<real>)
    requires |peaks| == |period| && 0.0 !in peaks
    requires forall i | 0 <= i < |period| :: 0.0 < period[i] <= peaks[i]
    ensures forall i | 0 <= i < |period| :: -1.0 < Drawdowns(period, peaks)[i] <= 0.0
    ensures forall i | 0 <= i < |period| :: Drawdowns(period, peaks)[i] == 0.0 <==> period[i] == peaks[i]
  {
    var ds := Drawdowns(period, peaks);
    forall i | 0 <= i < |period|
      ensures -1.0 < ds[i] <= 0.0 && (ds[i] == 0.0 <==> period[i] == peaks[i])
    {
      DrawdownOfOne(period[i], peaks[i]);
    }
  }

  /** The minimum of values in (-1, 0] lies there too, and is 0 exactly when
      every value is 0. */
  lemma MinOfDrawdowns(ds: seq<real>)
    requires |ds| > 0
    requires forall i | 0 <= i < |ds| :: -1.0 < ds[i] <= 0.0
    ensures -1.0 < MinOf(ds) <= 0.0
    ensures MinOf(ds) == 0.0 <==> forall i | 0 <= i < |ds| :: ds[i] == 0.0
  {
    var k :| 0 <= k < |ds| && MinOf(ds) == ds[k];
  }

  /** For positive values the maximum drawdown exists, is at most 0 and above
      -100%, and is 0 exactly when no value falls below an earlier peak. */
  lemma DrawdownBounds(period: seq<real>)
    requires |period| > 0
    requires forall i | 0 <= i < |period| :: period[i] > 0.0
    ensures MaxDrawdown(period).Some?
    ensures -100.0 < MaxDrawdown(period).value <= 0.0
    ensures MaxDrawdown(period).value == 0.0 <==> forall i | 0 <= i < |period| :: period[i] == RunningMax(period)[i]
  {
    PeaksPositive(period);
    DrawdownBelowBounds(period, RunningMax(period));
  }

  /** Below peaks at or above positive values, the smallest drawdown exists,
      lies in (-100%, 0], and is 0 exactly when every value is at its peak. */
  lemma DrawdownBelowBounds(period: seq<real>, peaks: seq<real>)
    requires |period| > 0 && |peaks| == |period| && 0.0 !in peaks
    requires forall i | 0 <= i < |period| :: 0.0 < period[i] <= peaks[i]
    ensures DrawdownBelow(period, peaks).Some?
    ensures -100.0 < DrawdownBelow(period, peaks).value <= 0.0
    ensures DrawdownBelow(period, peaks).value == 0.0 <==> forall i | 0 <= i < |period| :: period[i] == peaks[i]
  {
    DrawdownsInRange(period, peaks);
    var ds := Drawdowns(period, peaks);
    MinOfDrawdowns(ds);
    assert DrawdownBelow(period, peaks) == Some(MinOf(ds) * 100.0);
  }

  /** %B places the value against the bands: when UB lies above LB, %B > 1
      exactly on a sell signal, %B < 0 exactly on a buy signal, and %B in [0, 1]
      exactly on hold; %B is 0 at LB and 1 at UB. When the bands coincide it is
      0.5. */
  lemma PercentBMeaning(value: real, ub: real, lb: real)
    ensures ub == lb ==> PercentB(value, ub, lb) == 0.5
    ensures ub > lb ==> (PercentB(value, ub, lb) > 1.0 <==> Classify(value, ub, lb) == Sell)
    ensures ub > lb ==> (PercentB(value, ub, lb) < 0.0 <==> Classify(value, ub, lb) == Buy)
    ensures ub > lb ==> (0.0 <= PercentB(value, ub, lb) <= 1.0 <==> Classify(value, ub, lb) == Hold)
    ensures ub > lb ==> PercentB(lb, ub, lb) == 0.0 && PercentB(ub, ub, lb) == 1.0
  {
    if ub > lb {
      var d := ub - lb;
      var q := (value - lb) / d;
      assert Mul(q, d) == value - lb;
      assert Mul(q - 1.0, d) == Mul(q, d) - d;
      MulSign(q, d);
      MulSign(q - 1.0, d);
    }
  }

  /** Every running peak is one of the values seen so far. */
  lemma {:induction false} RunningMaxAttained(s: seq<real>)
    ensures forall i | 0 <= i < |s| :: RunningMax(s)[i] in s[..i + 1]
  {
    if s != [] {
      var init := s[..|s| - 1];
      RunningMaxAttained(init);
      var r, p := RunningMax(s), RunningMax(init);
      assert r == p + [r[|s| - 1]];
      forall i | 0 <= i < |s| ensures r[i] in s[..i + 1] {
        if i < |s| - 1 {
          assert r[i] == p[i];
          assert s[..i + 1] == init[..i + 1];
        } else if |s| > 1 {
          assert p[|s| - 2] in init[..|s| - 1];
          assert s[..i + 1] == init + [s[|s| - 1]];
        }
      }
    }
  }

  /** The period change has the sign of the move from the first to the last
      value when the first value is positive. */
  lemma PeriodChangeSign(period: seq<real>)
    requires |period| > 0 && period[0] > 0.0
    ensures PeriodChange(period).Some?
    ensures PeriodChange(period).value > 0.0 <==> period[|period| - 1] > period[0]
    ensures PeriodChange(period).value == 0.0 <==> period[|period| - 1] == period[0]
  {
    var f, e := period[0], period[|period| - 1];
    var q := (e - f) / f;
    assert Mul(q, f) == e - f;
    MulSign(q, f);
  }

  /** The rate shown always ends in exactly one '%': "0.00%" by default, and
      otherwise the realtime text with every '%' removed and one appended. */
  lemma RateEndsInOnePercent<V>(last: Obs, rt: Option<seq<(string, V)>>,
                                toFloat: V -> Option<real>, toText: V -> string)
    ensures var rate := CurrentQuote(last, rt, toFloat, toText).rate;
      |rate| > 0 && rate[|rate| - 1] == '%' && '%' !in rate[..|rate| - 1]
  {
    var rate := CurrentQuote(last, rt, toFloat, toText).rate;
    if rate == DefaultRate {
      assert rate[..|rate| - 1] == "0.00";
    } else {
      assert rate[..|rate| - 1] + "%" == rate;
    }
  }

  /** The realtime override. Without realtime data, the last history row is
      shown with "0.00%". When an estimate key exists and its value parses, that
      value is shown as a realtime estimate. When it exists but does not parse,
      the history row and "0.00%" are shown even if a rate key exists. With
      realtime data but no estimate key, the history value is shown, stamped as
      a realtime estimate. */
  lemma RealtimeOverride<V>(last: Obs, rt: Option<seq<(string, V)>>,
                            toFloat: V -> Option<real>, toText: V -> string)
    ensures rt.None? || rt.value == [] ==>
      CurrentQuote(last, rt, toFloat, toText) == Quote(last.value, DefaultRate, HistoryDate(last.date))
    ensures rt.Some? && rt.value != [] ==>
      forall j | 0 <= j < |rt.value| && Contains(rt.value[j].0, EstimateMarker)
                 && (forall i | 0 <= i < j :: !Contains(rt.value[i].0, EstimateMarker)) ::
        match toFloat(rt.value[j].1)
        case Some(x) => CurrentQuote(last, rt, toFloat, toText).value == x
                     && CurrentQuote(last, rt, toFloat, toText).stamp == RealtimeEstimate
        case None => CurrentQuote(last, rt, toFloat, toText) == Quote(last.value, DefaultRate, HistoryDate(last.date))
    ensures rt.Some? && rt.value != [] && (forall j | 0 <= j < |rt.value| :: !Contains(rt.value[j].0, EstimateMarker)) ==>
      CurrentQuote(last, rt, toFloat, toText).value == last.value
      && CurrentQuote(last, rt, toFloat, toText).stamp == RealtimeEstimate
  {
    if rt.Some? && rt.value != [] {
      var kv := FirstKeyWith(rt.value, EstimateMarker);
      forall j | 0 <= j < |rt.value| && Contains(rt.value[j].0, EstimateMarker)
                 && (forall i | 0 <= i < j :: !Contains(rt.value[i].0, EstimateMarker))
        ensures kv == Some(j)
      {
      }
    }
  }

  /** The rate half of the override. With realtime data whose estimate
      parses or is absent, the rate shown is the text of the first rate key
      with every '%' removed and one appended, or "0.00%" when no key holds
      the rate marker. */
  lemma RealtimeRate<V>(last: Obs, rt: Option<seq<(string, V)>>,
                        toFloat: V -> Option<real>, toText: V -> string)
    requires rt.Some? && rt.value != []
    requires forall j: nat | FirstWith(rt.value, EstimateMarker, j) :: toFloat(rt.value[j].1).Some?
    ensures forall j: nat | FirstWith(rt.value, RateMarker, j) ::
      CurrentQuote(last, rt, toFloat, toText).rate == RemovePercent(toText(rt.value[j].1)) + "%"
    ensures (forall j | 0 <= j < |rt.value| :: !Contains(rt.value[j].0, RateMarker)) ==>
      CurrentQuote(last, rt, toFloat, toText).rate == DefaultRate
  {
    var kv := FirstKeyWith(rt.value, EstimateMarker);
    if kv.Some? {
      assert FirstWith(rt.value, EstimateMarker, kv.value);
    }
    forall j: nat | FirstWith(rt.value, RateMarker, j)
      ensures FirstKeyWith(rt.value, RateMarker) == Some(j)
    {
    }
  }

  /** Without band columns (fewer than 20 rows) UB and LB default to 0, so %B
      is 0.5 and the advice is "sell" for any positive current value. */
  lemma NoBandsDashboard<V>(code: string, h: History, rt: Option<seq<(string, V)>>, days: nat,
                            toFloat: V -> Option<real>, toText: V -> string)
    requires h.Valid() && |h.rows| > 0 && |code| == CodeLength
    requires |h.rows| < Window
    ensures var v := DetailPage(code, Ok(h), rt, days, toFloat, toText);
      && v.Dashboard?
      && v.m.ub == 0.0 && v.m.lb == 0.0 && v.m.percentB == 0.5
      && (v.m.quote.value > 0.0 ==> v.m.signal == Sell)
      && (v.m.quote.value < 0.0 ==> v.m.signal == Buy)
      && (v.m.quote.value == 0.0 ==> v.m.signal == Hold)
  {
  }

  /** With band columns and no realtime data, the page shows UB and LB of the
      last row, LB ≤ UB, and its advice is the last row's 信号. */
  lemma DetailSignalMatchesTable<V>(code: string, h: History, days: nat,
                                    toFloat: V -> Option<real>, toText: V -> string)
    requires h.Valid() && |h.rows| > 0 && |code| == CodeLength
    requires |h.rows| >= Window
    ensures var v := DetailPage(code, Ok(h), None, days, toFloat, toText);
      var last := h.bands.value[|h.rows| - 1];
      && v.Dashboard?
      && last.band.Some?
      && v.m.ub == last.band.value.ub && v.m.lb == last.band.value.lb
      && v.m.lb <= v.m.ub
      && v.m.signal == last.signal
  {
    var n := |h.rows|;
    var quote := CurrentQuote(h.rows[n - 1], None, toFloat, toText);
    assert quote.value == h.rows[n - 1].value;
    var b := h.bands.value[n - 1].band;
    assert b.Some?;
    assert BandDefaults(h) == (b.value.ub, b.value.lb);
    assert DetailPage(code, Ok(h), None, days, toFloat, toText).m.signal == Classify(quote.value, b.value.ub, b.value.lb);
  }

  /** Which view the page shows: the code-length warning for codes not six
      characters long, then the fetch error, then the empty-history warning,
      otherwise the dashboard over the last `days` rows (all when fewer). */
  lemma DetailPageCases<V>(code: string, fetched: Result<History, FetchError>, rt: Option<seq<(string, V)>>,
                           days: nat, toFloat: V -> Option<real>, toText: V -> string)
    requires fetched.Ok? ==> fetched.value.Valid()
    ensures DetailPage(code, fetched, rt, days, toFloat, toText) == CodeLengthWarning <==> |code| != CodeLength
    ensures |code| == CodeLength && fetched.Err? ==>
      DetailPage(code, fetched, rt, days, toFloat, toText) == FetchFailed(fetched.error)
    ensures DetailPage(code, fetched, rt, days, toFloat, toText) == NoHistory <==>
      |code| == CodeLength && fetched.Ok? && |fetched.value.rows| == 0
    ensures DetailPage(code, fetched, rt, days, toFloat, toText).Dashboard? ==>
      var n := |fetched.value.rows|;
      DetailPage(code, fetched, rt, days, toFloat, toText).m.periodDays == (if days < n then days else n)
  {
  }
}
