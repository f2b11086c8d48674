# Fund dashboard data core, modelled in Dafny

`fund_app.py` is a Streamlit page that draws a fund's unit net-asset-value (NAV)
history with Bollinger bands. This project models the deterministic logic
inside that page and proves properties of it:

- **Column resolution** (`get_fund_data_v2`, module `Schema`). A `for` loop
  builds `col_map`. A stripped label holding "日期" becomes `date`. Otherwise
  a label holding "单位净值" becomes `value`. Then `rename` is applied. If
  `date` or `value` is still missing, the first two columns are taken by
  position. A table with a single column is an error.
- **Row cleaning** (module `Cleaning`). The two columns are coerced with
  abstract `Option`-returning parsers. Rows missing either cell are dropped.
  The rest are sorted by date.
- **Bands and signals** (module `Bands`).
  - From 20 rows on, each row `i ≥ 19` gets:
    - MB, the mean of the 20 values ending at the row;
    - STD, the sample standard deviation (divisor 19);
    - UB = MB + 2·STD and LB = MB − 2·STD.
  - The signal is "卖出" above UB, "买入" below LB and "持有" otherwise. Earlier
    rows get "数据不足".
  - `ComputeBands` is the loop that fills these columns row by row.
- **The fetch pipeline** (module `FundData`). `GetFundData` runs the source's
  steps in order: the early return on an empty answer, then `ResolveColumns`
  (which reassigns `df` through the rename and the fallback), then
  `CleanAndBand`. It is proved equal to the specification function
  `FetchHistory`. For a square root meeting `Bands.IsSqrt`, every history
  it returns satisfies `History.Valid()`.
- **Fund-code extraction** (module `Codes`). This is
  `set(re.findall(r"\d{6}", text))` on the overview page, and the early return
  when no code is found.
- **Detail-page indicators** (module `Detail`):
  - the realtime override of the current value and rate;
  - UB/LB defaulting to 0 without band columns;
  - the period change;
  - the running-maximum drawdown;
  - %B, with 0.5 when UB = LB;
  - the advice signal.

The specification functions are `Schema.Resolve`, `Cleaning.Clean`,
`Bands.BandAt`, `Bands.Classify`, `Bands.RowSignal`, `Bands.PointAt`,
`FundData.FetchHistory`, `Codes.StartOverview`, `Detail.CurrentQuote`,
`Detail.BandDefaults`, `Detail.MaxDrawdown`, `Detail.PercentB` and
`Detail.DetailPage`. They compute. The lemmas and methods listed below state
what those functions guarantee.

The model follows the code, and the code has:

- no price-range filter;
- no de-duplication of dates;
- no detection of index-like columns;
- no retries, fallback sources or concurrent batch fetching.

Modelling choices:

- **Values.** NAV values are `real`. Dates are `int` ordinals, ordered as
  pandas orders timestamps.
- **Square root.** The square root is a parameter. Lemmas that need it
  require `Bands.IsSqrt`, and facts about STD are stated through `Sq(std)`,
  the sample variance.
- **Unexpected errors.** After renaming, a canonical label can sit on two
  columns. `df["date"]` is then a frame, and the coercions raise on it. The
  outer `except` reports that case; here it is `FetchError.Unexpected`.
- **Realtime row.** The realtime row is a sequence of (label, cell) pairs in
  column order. `float()` and `str()` on a cell are the parameters `toFloat`
  (None when `float()` raises) and `toText`.

## Model

| member | source | states |
|---|---|---|
| `Text.Strip` | fund_app.py:40 | The result is the input without its leading and trailing Python whitespace; what is removed is whitespace and the result neither starts nor ends with it |
| `Text.ContainsStripped` | fund_app.py:40-44 | A marker with no whitespace at its ends occurs in the stripped label exactly when it occurs in the raw label |
| `Text.RemovePercent` | fund_app.py:400 | No '%' is left, every other character of the input is kept, and the result is no longer than the input |
| `Text.RemovePercentKeeps` | fund_app.py:400 | Text without '%' is unchanged |
| `Text.RemovePercentSplits` | fund_app.py:400 | Removal on a concatenation is the concatenation of the removals, so each character is handled on its own, in order |
| `Text.RemovePercentOfOne` | fund_app.py:400 | A lone '%' becomes empty and any other lone character stays; with `RemovePercentSplits` this fixes the result of every input |
| `Text.RemovePercentOfRate` | fund_app.py:400 | "-0.52%" becomes "-0.52" |
| `Schema.Canonical` | fund_app.py:39-44 | A label maps to `date` iff it holds "日期", to `value` iff it holds "单位净值" but not "日期", and to nothing iff it holds neither |
| `Schema.BuildColumnMap` | fund_app.py:38-44 | The loop's map has a key exactly for each label with a marker, mapped to its canonical name |
| `Schema.Rename` | fund_app.py:46 | Keys of the map are relabelled, other labels and all cells are kept, the column count is unchanged |
| `Schema.RenameWithColumnMap` | fund_app.py:38-46 | Renaming with the loop's map is renaming every column by its own label |
| `Schema.ResolveColumns` | fund_app.py:36-56 | The rename-then-fallback code computes `Resolve` |
| `Schema.ResolvedShape` | fund_app.py:46-56 | A resolved table keeps its row count, stays rectangular and has columns `date` and `value` |
| `Schema.ResolveByName` | fund_app.py:39-49 | When renaming finds both names, every column and its cells are kept, marker labels become canonical and other labels are kept |
| `Schema.ResolveByPosition` | fund_app.py:49-54 | When a name is still missing and there are at least two columns, the result is exactly the first two columns named `date`, `value` |
| `Schema.ResolveFailsIffOneColumn` | fund_app.py:49-56 | Resolution fails exactly for single-column tables, with the original labels in the error |
| `Schema.DateMarkerWins` | fund_app.py:41-44 | An instance of the date-first rule: the label "单位净值日期", which holds both markers, becomes `date` (the general rule is `Schema.Canonical`) |
| `Cleaning.DropMissing` | fund_app.py:59-63 | Dropping incomplete rows never adds rows |
| `Cleaning.DropMissingMembers` | fund_app.py:59-63 | An observation is kept exactly when some input row parses to it |
| `Cleaning.DropMissingSplits` | fund_app.py:59-63 | On two blocks of rows the kept rows are those of the first block, then those of the second |
| `Cleaning.DropMissingOfOne` | fund_app.py:59-63 | One row is kept, as its parse, iff both its cells parse; with `DropMissingSplits` this fixes the result, order and repeats included |
| `Cleaning.DropMissingMultiplicity` | fund_app.py:59-63 | Each observation is kept exactly as many times as there are rows parsing to it, so repeated rows are not merged |
| `Cleaning.DropMissingCount` | fund_app.py:59-63 | When every row parses, no row is dropped |
| `Cleaning.InsertByDate` | fund_app.py:64 | Inserting into a date-sorted sequence keeps it sorted and adds exactly the inserted row |
| `Cleaning.SortByDate` | fund_app.py:64 | The result is sorted by date and is a permutation of the input |
| `Cleaning.CleanSortedPermutation` | fund_app.py:59-65 | Cleaned rows are date-sorted, a permutation of the parsed rows, no more than the input, each the parse of some input row, and each observation appears once per row parsing to it |
| `Bands.SquaredDeviations` | fund_app.py:74 | The sum of squared deviations is non-negative |
| `Bands.SampleVariance` | fund_app.py:74 | The sample variance (divisor n − 1) is non-negative |
| `Bands.WindowEndingAt` | fund_app.py:73-74 | The rolling window holds exactly 20 values |
| `Bands.ComputeBands` | fund_app.py:72-89 | The loop produces one point per row, each equal to `PointAt` of that row |
| `Bands.PointAtMeaning` | fund_app.py:72-89 | Rows before 19 have no band and "数据不足"; later rows have MB = window mean, STD ≥ 0 with STD² = sample variance, UB/LB = MB ± 2·STD, LB ≤ MB ≤ UB, and the signal compares the value with UB and LB |
| `Bands.LabelsDistinct` | fund_app.py:79-89 | The four 信号 texts are distinct, so the column's text names exactly one signal |
| `Bands.ClassifyStrict` | fund_app.py:79-87 | For LB ≤ UB: "卖出" iff value > UB, "买入" iff value < LB, "持有" iff LB ≤ value ≤ UB, so a value equal to a band holds |
| `Bands.FlatWindowHolds` | fund_app.py:73-87 | A constant window has STD = 0, UB = LB = MB = the value, and signal "持有" |
| `Bands.SignalThroughVariance` | fund_app.py:74-87 | The signal is decided by comparing the squared distance from MB with four times the sample variance, with no square root |
| `Bands.JumpAfterFlat` | fund_app.py:73-87 | After 19 equal values, a move to x gives "卖出" iff x rises, "买入" iff it falls, "持有" iff unchanged |
| `Bands.RiseAfterTwentyFlatSells` | fund_app.py:73-87 | Twenty values of 1.0 then 1.1: row 20 has MB = 1.005 and signal "卖出" |
| `FundData.BandColumns` | fund_app.py:72 | Band columns exist exactly from 20 rows on, one point per row |
| `FundData.CleanAndBand` | fund_app.py:58-91 | The cleaning and band code computes `FromResolved` |
| `FundData.GetFundData` | fund_app.py:33-91 | The whole history side computes `FetchHistory` |
| `FundData.FundDataValid` | fund_app.py:33-91 | Every returned history has sorted rows, bands exactly from 20 rows, a band from row 19 on with LB ≤ UB, each row's signal from its own value and band, and each row's band point equal to `Bands.PointAt` of the value column |
| `FundData.FundDataErrors` | fund_app.py:33-56 | "No data" exactly for a missing or empty answer; unrecognised columns exactly for a single-column table |
| `FundData.ShortHistoryHasNoBands` | fund_app.py:72 | A returned history has no band columns iff it has fewer than 20 rows |
| `FundData.PositionalFallbackUsesFirstTwo` | fund_app.py:49-65 | After the positional fallback the rows are the cleaned first two columns |
| `Codes.MatchPositions` | fund_app.py:260 | Match starts are runs of six digits at or after the scan start, pairwise non-overlapping, the first is the leftmost run, and there is none when no run exists |
| `Codes.RunCovered` | fund_app.py:260 | Every run of six digits overlaps some match, so the scan skips no code |
| `Codes.ScanSkipsNoRun` | fund_app.py:260 | No run starts between the end of one match and the start of the next, so each match is the leftmost run after the previous one |
| `Codes.NoRunAfterLastMatch` | fund_app.py:260 | No run starts after the end of the last match |
| `Codes.FindCodes` | fund_app.py:260 | One code per match, each the six characters of the text at that match, so each is six digits |
| `Codes.ExtractCodes` | fund_app.py:260 | The set holds exactly the codes found: every code found is in it, every element is a code found, and each is six digits occurring in the text |
| `Codes.SeparatedCodeExtracted` | fund_app.py:260 | A run of six digits at the start of the text or after a non-digit (as in "017057, 005827") is in the set |
| `Codes.AskForCodesIffNoRun` | fund_app.py:260-265 | The page returns early exactly when the text has no run of six digits |
| `Codes.DigitChunks` | fund_app.py:260 | On a run of digits the matches are consecutive six-digit chunks |
| `Codes.DigitRunSplits` | fund_app.py:260 | n digits give n / 6 codes: 12 give two, 7 give one |
| `Codes.RepeatedCodeCollapses` | fund_app.py:260 | A code entered twice appears once in the set |
| `Detail.FirstKeyWith` | fund_app.py:395-396 | The first key holding the marker, or None when no key does |
| `Detail.RealtimeOverride` | fund_app.py:386-404 | No realtime data: last row and "0.00%"; parsable estimate: its value, stamped realtime; unparsable estimate: all history defaults; no estimate key: history value stamped realtime |
| `Detail.RealtimeRate` | fund_app.py:391-401 | With realtime data whose estimate parses or is absent, the rate is the first rate key's text with every '%' removed and one appended, or "0.00%" when no key holds the rate marker |
| `Detail.RateEndsInOnePercent` | fund_app.py:391-401 | The shown rate always ends in '%' and has no other '%' |
| `Detail.Tail` | fund_app.py:411 | The period is the last `days` values, or all of them |
| `Detail.PeriodChange` | fund_app.py:412-417 | The change is undefined exactly when the period starts at 0 |
| `Detail.PeriodChangeSign` | fund_app.py:412-415 | With a positive start, the change is positive iff the period ends higher and 0 iff it ends level |
| `Detail.RunningMax` | fund_app.py:420 | Each running peak is at least every value up to it |
| `Detail.RunningMaxAttained` | fund_app.py:420 | Each running peak is one of the values up to it |
| `Detail.MinOf` | fund_app.py:422 | The minimum is at most every element and is one of them |
| `Detail.DrawdownBounds` | fund_app.py:420-422 | For positive values the maximum drawdown exists, lies in (−100, 0], and is 0 iff no value falls below an earlier peak |
| `Detail.DrawdownBelowBounds` | fund_app.py:421-422 | The same bounds below any peaks at or above positive values |
| `Detail.PercentBMeaning` | fund_app.py:425-428 | %B = 0.5 when UB = LB; when UB > LB, %B > 1 iff "卖出", %B < 0 iff "买入", %B in [0, 1] iff "持有", %B is 0 at LB and 1 at UB |
| `Detail.NoBandsDashboard` | fund_app.py:407-459 | Below 20 rows UB = LB = 0, %B = 0.5, and the advice is "卖出" for any positive current value |
| `Detail.DetailSignalMatchesTable` | fund_app.py:386-459 | With bands and no realtime data, the page shows the last row's UB and LB and its advice equals the last row's 信号 |
| `Detail.DetailPageCases` | fund_app.py:369-411 | Code-length warning iff the code is not six characters, then the fetch error, then the empty-history warning; the period covers min(days, rows) rows |

## Left out

- Streamlit widgets, session state, page routing, reruns, the Altair chart and
  the colour styling are UI and are not modelled.
- The akshare calls (`fund_open_fund_info_em`, `fund_value_estimation_em`) are
  network I/O. Their answers are inputs. The lookup of the realtime row by fund
  code (lines 94-101) and the overview page's filtering of the bulk estimate
  table (lines 267-289) are not modelled.
- `@st.cache_data` caching and `st.cache_data.clear()` belong to the library.
- CSV export and `:.4f` / `:.2f` number formatting are not modelled. The date is
  kept as an ordinal, not formatted with `strftime`.
- `Bands.PointAtMeaning`: IEEE float rounding is not modelled. Arithmetic is
  exact over `real`, and the square root is an abstract parameter.
- `Codes.MatchPositions`: `\d` is restricted to ASCII '0'..'9'. Python's `\d`
  also matches other Unicode decimal digits.
- `Cleaning.SortByDate`: the order of rows with equal dates is not fixed. The
  source's default quicksort is not stable, so only sortedness and
  permutation are promised.
- `Detail.PeriodChange`: a zero start value gives a non-finite float (inf or
  NaN) in the source. Here it gives None.
- `Detail.DrawdownBounds`: an empty period (NaN) or a zero running peak
  (a non-finite or skipped drawdown) gives None for the maximum drawdown.
  NaN-skipping in `min()` is not modelled.
- `Detail.RealtimeOverride`: realtime labels are strings. A non-string key
  would make `in` raise, which the bare `except` swallows; this is not
  modelled. A `float()` result of inf or NaN is not modelled either.
- `Cleaning.DropMissing`: each cell is parsed on its own. pandas 2's
  `to_datetime` without a format infers one format from the first non-null
  cell and, with `errors="coerce"`, turns cells not matching it into NaT, so
  whether a date parses can depend on the rest of the column. That
  column-wide inference is not modelled.
- Non-string column labels (`str(c)` at line 40) are not modelled: labels are
  strings.
- Auxiliary provider columns after resolution (e.g. 日增长率) stay in the table
  but play no further part.
