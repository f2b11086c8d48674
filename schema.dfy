/** Column resolution in get_fund_data_v2: the `col_map` loop, `rename`, and the
    positional fallback to the first two columns. */
module Schema {
  import opened Wrappers
  import opened Text

  /** Marker of the date column ("净值日期" in the provider's usual table). */
  const DateMarker := "日期"
  /** Marker of the unit net-asset-value column. */
  const ValueMarker := "单位净值"
  /** Canonical column names after resolution. */
  const DateColumn := "date"
  const ValueColumn := "value"

  /** One named column of a provider table. */
  datatype Column<C> = Column(name: string, cells: seq<C>)

  /** A provider table, column by column, with `height` rows. */
  datatype Table<C> = Table(columns: seq<Column<C>>, height: nat) {
    /** Every column has one cell per row, as in a DataFrame. */
    predicate Valid() {
      forall k | 0 <= k < |columns| :: |columns[k].cells| == height
    }

    /** pandas' `DataFrame.empty`: no columns or no rows. */
    predicate IsEmpty() {
      |columns| == 0 || height == 0
    }

    /** `df.columns.tolist()`. */
    function Names(): (r: seq<string>)
      ensures |r| == |columns|
      ensures forall k | 0 <= k < |columns| :: r[k] == columns[k].name
    {
      seq(|columns|, k requires 0 <= k < |columns| => columns[k].name)
    }
  }

  /** Errors get_fund_data_v2 reports in place of a table. */
  datatype FetchError =
    | NoData                                    // provider returned nothing (line 34)
    | ColumnsNotRecognised(names: seq<string>)  // fewer than two columns (line 56)
    | Unexpected                                // an exception caught at line 103

  /** The canonical name a column is renamed to, if any: a stripped name holding
      the date marker becomes `date`; otherwise one holding the value marker
      becomes `value`; any other name gets no entry in `col_map`. */
  function Canonical(name: string): (r: Option<string>)
    ensures r == Some(DateColumn) <==> Contains(name, DateMarker)
    ensures r == Some(ValueColumn) <==> !Contains(name, DateMarker) && Contains(name, ValueMarker)
    ensures r == None <==> !Contains(name, DateMarker) && !Contains(name, ValueMarker)
  {
    ContainsStripped(name, DateMarker);
    ContainsStripped(name, ValueMarker);
    var c := Strip(name);
    if Contains(c, DateMarker) then Some(DateColumn)
    else if Contains(c, ValueMarker) then Some(ValueColumn)
    else None
  }

  /** The name a column carries after `raw_df.rename(columns=col_map)`. */
  function RenamedName(name: string): string {
    match Canonical(name)
    case Some(n) => n
    case None => name
  }

  /** The `col_map` loop: one entry per column whose stripped name holds a marker. */
  method BuildColumnMap(names: seq<string>) returns (colMap: map<string, string>)
    ensures forall c :: c in colMap <==> c in names && Canonical(c).Some?
    ensures forall c :: c in colMap ==> colMap[c] == RenamedName(c)
  {
    colMap := map[];
    for k := 0 to |names|
      invariant forall c :: c in colMap <==> c in names[..k] && Canonical(c).Some?
      invariant forall c :: c in colMap ==> colMap[c] == RenamedName(c)
    {
      var c := names[k];
      var s := Strip(c);
      if Contains(s, DateMarker) {
        colMap := colMap[c := DateColumn];
      } else if Contains(s, ValueMarker) {
        colMap := colMap[c := ValueColumn];
      }
      assert names[..k + 1] == names[..k] + [c];
    }
    assert names[..|names|] == names;
  }

  /** pandas' `rename(columns=m)`: labels that are keys of `m` are replaced,
      the others are kept. */
  function Rename<C>(columns: seq<Column<C>>, m: map<string, string>): (r: seq<Column<C>>)
    ensures |r| == |columns|
    ensures forall k | 0 <= k < |columns| :: r[k].cells == columns[k].cells
    ensures forall k | 0 <= k < |columns| ::
      r[k].name == (if columns[k].name in m then m[columns[k].name] else columns[k].name)
  {
    seq(|columns|, k requires 0 <= k < |columns| =>
      var c := columns[k];
      Column(if c.name in m then m[c.name] else c.name, c.cells))
  }

  /** Every column renamed by its own name, as the `col_map` loop decides. */
  function RenameAll<C>(columns: seq<Column<C>>): (r: seq<Column<C>>)
    ensures |r| == |columns|
    ensures forall k | 0 <= k < |columns| :: r[k] == Column(RenamedName(columns[k].name), columns[k].cells)
  {
    seq(|columns|, k requires 0 <= k < |columns| => Column(RenamedName(columns[k].name), columns[k].cells))
  }

  /** Renaming with the map BuildColumnMap returns is renaming every column by its own name. */
  lemma RenameWithColumnMap<C>(t: Table<C>, m: map<string, string>)
    requires forall c :: c in m <==> c in t.Names() && Canonical(c).Some?
    requires forall c :: c in m ==> m[c] == RenamedName(c)
    ensures Rename(t.columns, m) == RenameAll(t.columns)
  {
    forall k | 0 <= k < |t.columns|
      ensures Rename(t.columns, m)[k] == RenameAll(t.columns)[k]
    {
      assert t.Names()[k] == t.columns[k].name;
    }
  }

  /** Renaming keeps every column's cells, so the table stays rectangular. */
  lemma RenameAllValid<C>(t: Table<C>)
    requires t.Valid()
    ensures Table(RenameAll(t.columns), t.height).Valid()
  {
    var renamed := RenameAll(t.columns);
    forall k | 0 <= k < |renamed| ensures |renamed[k].cells| == t.height {
      assert renamed[k].cells == t.columns[k].cells;
    }
  }

  /** Lines 36-56 on a non-empty table: rename by markers; when `date` or `value`
      is still missing, keep the first two columns by position under those names,
      or fail when there are fewer than two. */
  function Resolve<C>(t: Table<C>): (r: Result<Table<C>, FetchError>)
    requires t.Valid() && !t.IsEmpty()
  {
    var renamed := Table(RenameAll(t.columns), t.height);
    if DateColumn in renamed.Names() && ValueColumn in renamed.Names() then Ok(renamed)
    else if |t.columns| >= 2 then
      Ok(Table([Column(DateColumn, t.columns[0].cells), Column(ValueColumn, t.columns[1].cells)], t.height))
    else Err(ColumnsNotRecognised(t.Names()))
  }

  /** Lines 38-56 as written: build `col_map`, rename, and fall back to the
      first two columns by position when a canonical label is still missing. */
  method ResolveColumns<C>(rawDf: Table<C>) returns (r: Result<Table<C>, FetchError>)
    requires rawDf.Valid() && !rawDf.IsEmpty()
    ensures r == Resolve(rawDf)
  {
    var colMap := BuildColumnMap(rawDf.Names());
    RenameWithColumnMap(rawDf, colMap);
    var df := Table(Rename(rawDf.columns, colMap), rawDf.height);
    if DateColumn !in df.Names() || ValueColumn !in df.Names() {
      if |df.columns| >= 2 {
        df := Table([Column(DateColumn, df.columns[0].cells), Column(ValueColumn, df.columns[1].cells)], df.height);
      } else {
        return Err(ColumnsNotRecognised(rawDf.Names()));
      }
    }
    return Ok(df);
  }

  /** A resolved table keeps the row count, stays rectangular and has columns
      named `date` and `value`. */
  lemma ResolvedShape<C>(t: Table<C>)
    requires t.Valid() && !t.IsEmpty()
    ensures Resolve(t).Ok? ==>
      Resolve(t).value.Valid() && Resolve(t).value.height == t.height && !Resolve(t).value.IsEmpty()
    ensures Resolve(t).Ok? ==> DateColumn in Resolve(t).value.Names() && ValueColumn in Resolve(t).value.Names()
  {
    var renamed := Table(RenameAll(t.columns), t.height);
    if DateColumn in renamed.Names() && ValueColumn in renamed.Names() {
      RenameAllValid(t);
    } else if |t.columns| >= 2 {
      var fallback := Table([Column(DateColumn, t.columns[0].cells), Column(ValueColumn, t.columns[1].cells)], t.height);
      assert fallback.Names()[0] == DateColumn && fallback.Names()[1] == ValueColumn;
    }
  }

  /** When renaming finds both columns, the table keeps every column and its cells;
      a column is named `date` exactly when its name holds the date marker, and
      `value` exactly when it holds the value marker but not the date marker; a
      column holding neither marker keeps its original name. */
  lemma ResolveByName<C>(t: Table<C>)
    requires t.Valid() && !t.IsEmpty()
    requires DateColumn in Table(RenameAll(t.columns), t.height).Names()
    requires ValueColumn in Table(RenameAll(t.columns), t.height).Names()
    ensures Resolve(t).Ok?
    ensures |Resolve(t).value.columns| == |t.columns|
    ensures forall k | 0 <= k < |t.columns| ::
      var before, after := t.columns[k], Resolve(t).value.columns[k];
      && after.cells == before.cells
      && (Contains(before.name, DateMarker) ==> after.name == DateColumn)
      && (!Contains(before.name, DateMarker) && Contains(before.name, ValueMarker) ==> after.name == ValueColumn)
      && (!Contains(before.name, DateMarker) && !Contains(before.name, ValueMarker) ==> after.name == before.name)
  {
  }

  /** When a canonical name is still missing after renaming and there are at least
      two columns, the result is exactly the first two columns, renamed `date` and
      `value`; every other column is dropped. */
  lemma ResolveByPosition<C>(t: Table<C>)
    requires t.Valid() && !t.IsEmpty() && |t.columns| >= 2
    requires DateColumn !in Table(RenameAll(t.columns), t.height).Names()
          || ValueColumn !in Table(RenameAll(t.columns), t.height).Names()
    ensures Resolve(t) == Ok(Table([Column(DateColumn, t.columns[0].cells),
                                    Column(ValueColumn, t.columns[1].cells)], t.height))
  {
  }

  /** Resolution fails exactly when the table has a single column: one name can
      never be both `date` and `value`, and two or more columns always resolve.
      The error carries the original column names. */
  lemma {:induction false} ResolveFailsIffOneColumn<C>(t: Table<C>)
    requires t.Valid() && !t.IsEmpty()
    ensures Resolve(t).Err? <==> |t.columns| == 1
    ensures Resolve(t).Err? ==> Resolve(t).error == ColumnsNotRecognised(t.Names())
  {
    if |t.columns| == 1 {
      var names := Table(RenameAll(t.columns), t.height).Names();
      assert names == [names[0]];
    }
  }

  /** The date marker takes priority: "单位净值日期" holds both markers and is
      renamed `date`. */
  lemma DateMarkerWins()
    ensures Canonical("单位净值日期") == Some(DateColumn)
    ensures Contains("单位净值日期", ValueMarker)
  {
    assert OccursAt("单位净值日期", DateMarker, 4);
    assert OccursAt("单位净值日期", ValueMarker, 0);
  }
}
