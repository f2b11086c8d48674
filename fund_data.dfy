/** get_fund_data_v2 (lines 19-108) on the history side: the provider table is
    resolved, cleaned and, from 20 rows on, given its band and signal columns. */
module FundData {
  import opened Wrappers
  import opened Schema
  import opened Cleaning
  import opened Bands

  /** The history frame get_fund_data_v2 returns: the cleaned rows and, when
      there are at least `Window` of them, one band point per row (the MB, STD,
      UB, LB and 信号 columns). */
  datatype History = History(rows: seq<Obs>, bands: Option<seq<BandPoint>>) {
    /** The `value` column. */
    function Values(): (r: seq<real>)
      ensures |r| == |rows|
      ensures forall i | 0 <= i < |rows| :: r[i] == rows[i].value
    {
      seq(|rows|, i requires 0 <= i < |rows| => rows[i].value)
    }

    /** What every history frame satisfies: rows sorted by date; band columns
        exactly when there are at least `Window` rows, one point per row, a band
        exactly from row `Window - 1` on, never with LB above UB, and each row's
        signal computed from its own value and band. */
    predicate Valid() {
      && SortedByDate(rows)
      && (bands.Some? <==> |rows| >= Window)
      && (bands.Some? ==>
            && |bands.value| == |rows|
            && forall i | 0 <= i < |rows| ::
                 && (bands.value[i].band.None? <==> i < Window - 1)
                 && (bands.value[i].band.Some? ==> bands.value[i].band.value.lb <= bands.value[i].band.value.ub)
                 && bands.value[i].signal == RowSignal(rows[i].value, bands.value[i].band))
    }
  }

  /** How many columns carry the label `name`. */
  function CountNamed<C>(columns: seq<Column<C>>, name: string): (n: nat)
    ensures n <= |columns|
    ensures n == 0 <==> forall k | 0 <= k < |columns| :: columns[k].name != name
  {
    if columns == [] then 0
    else (if columns[0].name == name then 1 else 0) + CountNamed(columns[1..], name)
  }

  /** The position of the first column labelled `name`. */
  function IndexOf<C>(columns: seq<Column<C>>, name: string): (k: nat)
    requires CountNamed(columns, name) > 0
    ensures k < |columns| && columns[k].name == name
    ensures forall j | 0 <= j < k :: columns[j].name != name
  {
    if columns[0].name == name then 0 else 1 + IndexOf(columns[1..], name)
  }

  /** The band columns of a cleaned series: none below `Window` rows. */
  function BandColumns(values: seq<real>, sqrt: real -> real): (r: Option<seq<BandPoint>>)
    ensures r.Some? <==> |values| >= Window
    ensures r.Some? ==> |r.value| == |values|
  {
    if |values| >= Window then Some(seq(|values|, i requires 0 <= i < |values| => PointAt(values, i, sqrt)))
    else None
  }

  /** Lines 58-89 on a resolved table: a canonical label on two columns makes
      `df["date"]` a frame, which the coercions reject, and the exception lands
      in the outer handler (reported here as `Unexpected`); otherwise the two
      columns are cleaned and, from `Window` rows on, given their bands. */
  function FromResolved<C>(t: Table<C>, parseDate: C -> Option<int>, parseValue: C -> Option<real>,
                           sqrt: real -> real): (r: Result<History, FetchError>)
    requires t.Valid()
    requires DateColumn in t.Names() && ValueColumn in t.Names()
  {
    if CountNamed(t.columns, DateColumn) != 1 || CountNamed(t.columns, ValueColumn) != 1 then Err(Unexpected)
    else
      var dates := t.columns[IndexOf(t.columns, DateColumn)].cells;
      var values := t.columns[IndexOf(t.columns, ValueColumn)].cells;
      var rows := Clean(dates, values, parseDate, parseValue);
      Ok(History(rows, BandColumns(History(rows, None).Values(), sqrt)))
  }

  /** The history side of get_fund_data_v2 on the provider's answer `raw`
      (None when the provider returned None). Both coercions are parameters, and
      so is the square root used for STD. */
  function FetchHistory<C>(raw: Option<Table<C>>, parseDate: C -> Option<int>, parseValue: C -> Option<real>,
                       sqrt: real -> real): (r: Result<History, FetchError>)
    requires raw.Some? ==> raw.value.Valid()
  {
    if raw.None? || raw.value.IsEmpty() then Err(NoData)
    else match Resolve(raw.value)
      case Err(e) => Err(e)
      case Ok(t) =>
        ResolvedShape(raw.value);
        FromResolved(t, parseDate, parseValue, sqrt)
  }

  /** Lines 58-89 with `df` reassigned step by step as the source does. */
  method CleanAndBand<C>(df: Table<C>, parseDate: C -> Option<int>, parseValue: C -> Option<real>,
                         sqrt: real -> real) returns (r: Result<History, FetchError>)
    requires df.Valid()
    requires DateColumn in df.Names() && ValueColumn in df.Names()
    ensures r == FromResolved(df, parseDate, parseValue, sqrt)
  {
    if CountNamed(df.columns, DateColumn) != 1 || CountNamed(df.columns, ValueColumn) != 1 {
      return Err(Unexpected);
    }
    var dates := df.columns[IndexOf(df.columns, DateColumn)].cells;
    var values := df.columns[IndexOf(df.columns, ValueColumn)].cells;
    var rows := Clean(dates, values, parseDate, parseValue);
    var bands: Option<seq<BandPoint>> := None;
    if |rows| >= Window {
      var points := ComputeBands(History(rows, None).Values(), sqrt);
      bands := Some(points);
      assert points == BandColumns(History(rows, None).Values(), sqrt).value;
    }
    return Ok(History(rows, bands));
  }

  /** Lines 33-89: the early return on an empty answer, then resolution,
      cleaning and bands. */
  method GetFundData<C>(raw: Option<Table<C>>, parseDate: C -> Option<int>, parseValue: C -> Option<real>,
                        sqrt: real -> real) returns (r: Result<History, FetchError>)
    requires raw.Some? ==> raw.value.Valid()
    ensures r == FetchHistory(raw, parseDate, parseValue, sqrt)
  {
    if raw.None? || raw.value.IsEmpty() {
      return Err(NoData);
    }
    var resolved := ResolveColumns(raw.value);
    if resolved.Err? {
      return Err(resolved.error);
    }
    ResolvedShape(raw.value);
    r := CleanAndBand(resolved.value, parseDate, parseValue, sqrt);
  }

  /** Every history frame get_fund_data_v2 returns is Valid: sorted rows, band
      columns from `Window` rows on, the right signal on every row; and each
      row's band point is `PointAt` of the value column, so `PointAtMeaning`
      gives its MB, STD, UB and LB. */
  lemma FundDataValid<C>(raw: Option<Table<C>>, parseDate: C -> Option<int>, parseValue: C -> Option<real>,
                         sqrt: real -> real)
    requires raw.Some? ==> raw.value.Valid()
    requires IsSqrt(sqrt)
    ensures FetchHistory(raw, parseDate, parseValue, sqrt).Ok? ==> FetchHistory(raw, parseDate, parseValue, sqrt).value.Valid()
    ensures var r := FetchHistory(raw, parseDate, parseValue, sqrt);
      r.Ok? && r.value.bands.Some? ==>
        forall i | 0 <= i < |r.value.rows| :: r.value.bands.value[i] == PointAt(r.value.Values(), i, sqrt)
  {
    var r := FetchHistory(raw, parseDate, parseValue, sqrt);
    if r.Ok? {
      var t := Resolve(raw.value).value;
      ResolvedShape(raw.value);
      var dates := t.columns[IndexOf(t.columns, DateColumn)].cells;
      var values := t.columns[IndexOf(t.columns, ValueColumn)].cells;
      CleanSortedPermutation(dates, values, parseDate, parseValue);
      var h := r.value;
      if h.bands.Some? {
        var vs := h.Values();
        forall i | 0 <= i < |h.rows|
          ensures && (h.bands.value[i].band.None? <==> i < Window - 1)
                  && (h.bands.value[i].band.Some? ==> h.bands.value[i].band.value.lb <= h.bands.value[i].band.value.ub)
                  && h.bands.value[i].signal == RowSignal(h.rows[i].value, h.bands.value[i].band)
        {
          assert h.bands.value[i] == PointAt(vs, i, sqrt);
          PointAtMeaning(vs, i, sqrt);
        }
      }
    }
  }

  /** The error cases: no data exactly when the provider returned nothing or an
      empty table; unrecognised columns exactly when a non-empty table has a
      single column, reported with its original labels. */
  lemma FundDataErrors<C>(raw: Option<Table<C>>, parseDate: C -> Option<int>, parseValue: C -> Option<real>,
                          sqrt: real -> real)
    requires raw.Some? ==> raw.value.Valid()
    ensures FetchHistory(raw, parseDate, parseValue, sqrt) == Err(NoData) <==> raw.None? || raw.value.IsEmpty()
    ensures FetchHistory(raw, parseDate, parseValue, sqrt).Err? && FetchHistory(raw, parseDate, parseValue, sqrt).error.ColumnsNotRecognised?
        <==> raw.Some? && !raw.value.IsEmpty() && |raw.value.columns| == 1
    ensures raw.Some? && !raw.value.IsEmpty() && |raw.value.columns| == 1 ==>
      FetchHistory(raw, parseDate, parseValue, sqrt) == Err(ColumnsNotRecognised(raw.value.Names()))
  {
    if raw.Some? && !raw.value.IsEmpty() {
      ResolveFailsIffOneColumn(raw.value);
    }
  }

  /** With fewer than `Window` cleaned rows there are no band columns; the
      frame is returned without them. */
  lemma ShortHistoryHasNoBands<C>(raw: Option<Table<C>>, parseDate: C -> Option<int>, parseValue: C -> Option<real>,
                                  sqrt: real -> real)
    requires raw.Some? ==> raw.value.Valid()
    ensures var r := FetchHistory(raw, parseDate, parseValue, sqrt);
      r.Ok? ==> (r.value.bands.None? <==> |r.value.rows| < Window)
  {
  }

  /** When the labels are not recognised and the first two columns are taken by
      position, the date and value columns are exactly those two, so the
      duplicate-label error cannot arise. */
  lemma PositionalFallbackUsesFirstTwo<C>(raw: Table<C>, parseDate: C -> Option<int>, parseValue: C -> Option<real>,
                                          sqrt: real -> real)
    requires raw.Valid() && !raw.IsEmpty() && |raw.columns| >= 2
    requires DateColumn !in Table(RenameAll(raw.columns), raw.height).Names()
          || ValueColumn !in Table(RenameAll(raw.columns), raw.height).Names()
    ensures FetchHistory(Some(raw), parseDate, parseValue, sqrt).Ok?
    ensures FetchHistory(Some(raw), parseDate, parseValue, sqrt).value.rows
         == Clean(raw.columns[0].cells, raw.columns[1].cells, parseDate, parseValue)
  {
    ResolveByPosition(raw);
    var t := Resolve(raw).value;
    assert CountNamed(t.columns[1..], DateColumn) == 0;
    assert CountNamed(t.columns[2..], ValueColumn) == 0;
    assert CountNamed(t.columns[1..], ValueColumn) == 1;
  }
}
