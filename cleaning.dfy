/** Row cleaning in get_fund_data_v2: coerce the `date` and `value` columns,
    drop rows where either is missing, sort by date. */
module Cleaning {
  import opened Wrappers

  /** One kept row: a parsed timestamp (an ordinal, ordered as pandas orders
      datetimes) and a parsed unit value. */
  datatype Obs = Obs(date: int, value: real)

  /** Row `i` parses, under the coercing parsers, to the observation `o`. */
  predicate ParsesTo<C>(dates: seq<C>, values: seq<C>, i: int,
                        parseDate: C -> Option<int>, parseValue: C -> Option<real>, o: Obs)
    requires 0 <= i < |dates| == |values|
  {
    parseDate(dates[i]) == Some(o.date) && parseValue(values[i]) == Some(o.value)
  }

  /** Rows whose date and value both parse under the coercing parsers, in input
      order (`to_datetime`/`to_numeric` with `errors="coerce"`, then `dropna`). */
  function DropMissing<C>(dates: seq<C>, values: seq<C>,
                          parseDate: C -> Option<int>, parseValue: C -> Option<real>): (r: seq<Obs>)
    requires |dates| == |values|
    ensures |r| <= |dates|
  {
    if dates == [] then []
    else
      var rest := DropMissing(dates[1..], values[1..], parseDate, parseValue);
      match (parseDate(dates[0]), parseValue(values[0]))
      case (Some(d), Some(v)) => [Obs(d, v)] + rest
      case _ => rest
  }

  /** `dropna` keeps an observation exactly when some row parses to it. */
  lemma {:induction false} DropMissingMembers<C>(dates: seq<C>, values: seq<C>,
                                              parseDate: C -> Option<int>, parseValue: C -> Option<real>, o: Obs)
    requires |dates| == |values|
    ensures o in DropMissing(dates, values, parseDate, parseValue) <==>
      exists i | 0 <= i < |dates| :: ParsesTo(dates, values, i, parseDate, parseValue, o)
  {
    if dates != [] {
      var rest := DropMissing(dates[1..], values[1..], parseDate, parseValue);
      DropMissingMembers(dates[1..], values[1..], parseDate, parseValue, o);
      if o in DropMissing(dates, values, parseDate, parseValue) {
        if o in rest {
          var j :| 0 <= j < |dates| - 1 && ParsesTo(dates[1..], values[1..], j, parseDate, parseValue, o);
          assert ParsesTo(dates, values, j + 1, parseDate, parseValue, o);
        } else {
          assert ParsesTo(dates, values, 0, parseDate, parseValue, o);
        }
      }
      if exists i | 0 <= i < |dates| :: ParsesTo(dates, values, i, parseDate, parseValue, o) {
        var i :| 0 <= i < |dates| && ParsesTo(dates, values, i, parseDate, parseValue, o);
        if i > 0 {
          assert ParsesTo(dates[1..], values[1..], i - 1, parseDate, parseValue, o);
        } else {
          assert DropMissing(dates, values, parseDate, parseValue) == [o] + rest;
        }
      }
    }
  }

  /** `dropna` works row by row: on two blocks of rows it keeps the kept rows
      of each block, in order. With `DropMissingOfOne` this fixes the result of
      every input, repeated rows included. */
  lemma {:induction false} DropMissingSplits<C>(d1: seq<C>, v1: seq<C>, d2: seq<C>, v2: seq<C>,
                                             parseDate: C -> Option<int>, parseValue: C -> Option<real>)
    requires |d1| == |v1| && |d2| == |v2|
    ensures DropMissing(d1 + d2, v1 + v2, parseDate, parseValue)
         == DropMissing(d1, v1, parseDate, parseValue) + DropMissing(d2, v2, parseDate, parseValue)
  {
    if d1 == [] {
      assert d1 + d2 == d2 && v1 + v2 == v2;
    } else {
      assert (d1 + d2)[0] == d1[0] && (v1 + v2)[0] == v1[0];
      assert (d1 + d2)[1..] == d1[1..] + d2 && (v1 + v2)[1..] == v1[1..] + v2;
      DropMissingSplits(d1[1..], v1[1..], d2, v2, parseDate, parseValue);
    }
  }

  /** A single row is kept, as its parse, exactly when both cells parse. */
  lemma DropMissingOfOne<C>(d: C, v: C, parseDate: C -> Option<int>, parseValue: C -> Option<real>)
    ensures DropMissing([d], [v], parseDate, parseValue)
         == if parseDate(d).Some? && parseValue(v).Some? then [Obs(parseDate(d).value, parseValue(v).value)] else []
  {
    assert [d][1..] == [] && [v][1..] == [];
  }

  /** The indices of the rows that parse to `o`. */
  function RowsParsingTo<C>(dates: seq<C>, values: seq<C>,
                            parseDate: C -> Option<int>, parseValue: C -> Option<real>, o: Obs): set<nat>
    requires |dates| == |values|
  {
    set i: nat | i < |dates| && ParsesTo(dates, values, i, parseDate, parseValue, o)
  }

  /** The indices from `lo` on of the rows that parse to `o`. */
  function RowsParsingToFrom<C>(dates: seq<C>, values: seq<C>,
                                parseDate: C -> Option<int>, parseValue: C -> Option<real>, o: Obs, lo: nat): set<nat>
    requires |dates| == |values|
  {
    set i: nat | lo <= i < |dates| && ParsesTo(dates, values, i, parseDate, parseValue, o)
  }

  /** The rows from `lo` on keep `o` once per row from `lo` on that parses to it. */
  lemma {:induction false} MultiplicityFrom<C>(dates: seq<C>, values: seq<C>,
                                            parseDate: C -> Option<int>, parseValue: C -> Option<real>, o: Obs, lo: nat)
    requires |dates| == |values| && lo <= |dates|
    decreases |dates| - lo
    ensures multiset(DropMissing(dates[lo..], values[lo..], parseDate, parseValue))[o]
         == |RowsParsingToFrom(dates, values, parseDate, parseValue, o, lo)|
  {
    var rows := RowsParsingToFrom(dates, values, parseDate, parseValue, o, lo);
    if lo == |dates| {
      assert rows == {};
    } else {
      MultiplicityFrom(dates, values, parseDate, parseValue, o, lo + 1);
      assert dates[lo..][1..] == dates[lo + 1..] && values[lo..][1..] == values[lo + 1..];
      assert dates[lo..][0] == dates[lo] && values[lo..][0] == values[lo];
      var later := RowsParsingToFrom(dates, values, parseDate, parseValue, o, lo + 1);
      if ParsesTo(dates, values, lo, parseDate, parseValue, o) {
        assert rows == later + {lo};
      } else {
        assert rows == later;
      }
    }
  }

  /** `dropna` neither merges nor loses repeats: every observation is kept as
      many times as there are rows parsing to it. */
  lemma DropMissingMultiplicity<C>(dates: seq<C>, values: seq<C>,
                                   parseDate: C -> Option<int>, parseValue: C -> Option<real>, o: Obs)
    requires |dates| == |values|
    ensures multiset(DropMissing(dates, values, parseDate, parseValue))[o]
         == |RowsParsingTo(dates, values, parseDate, parseValue, o)|
  {
    MultiplicityFrom(dates, values, parseDate, parseValue, o, 0);
    assert dates[0..] == dates && values[0..] == values;
    assert RowsParsingToFrom(dates, values, parseDate, parseValue, o, 0)
        == RowsParsingTo(dates, values, parseDate, parseValue, o);
  }

  /** Non-decreasing by date. */
  predicate SortedByDate(s: seq<Obs>) {
    forall i, j | 0 <= i < j < |s| :: s[i].date <= s[j].date
  }

  /** Putting a row no later than every row of a sorted sequence in front keeps it sorted. */
  lemma PrependSorted(x: Obs, s: seq<Obs>)
    requires SortedByDate(s)
    requires forall k | 0 <= k < |s| :: x.date <= s[k].date
    ensures SortedByDate([x] + s)
  {
  }

  /** Every row of a sequence with the multiset `multiset(s) + {o}` is `o` or a row of `s`. */
  lemma MemberOfUnion(x: Obs, o: Obs, s: seq<Obs>, r: seq<Obs>)
    requires multiset(r) == multiset(s) + multiset{o}
    requires x in r
    ensures x == o || x in s
  {
    assert x in multiset(r);
  }

  /** `o` inserted into the sorted sequence `s`. */
  function InsertByDate(o: Obs, s: seq<Obs>): (r: seq<Obs>)
    requires SortedByDate(s)
    ensures SortedByDate(r)
    ensures multiset(r) == multiset(s) + multiset{o}
  {
    if s == [] || o.date <= s[0].date then [o] + s
    else
      var rest := InsertByDate(o, s[1..]);
      assert forall k | 0 <= k < |rest| :: s[0].date <= rest[k].date by {
        forall k | 0 <= k < |rest| ensures s[0].date <= rest[k].date {
          MemberOfUnion(rest[k], o, s[1..], rest);
        }
      }
      PrependSorted(s[0], rest);
      assert s == [s[0]] + s[1..];
      [s[0]] + rest
  }

  /** `sort_values("date")`: the rows in non-decreasing date order. pandas'
      default quicksort is not stable, so nothing is claimed about the order of
      rows with equal dates beyond their being a permutation. */
  function SortByDate(s: seq<Obs>): (r: seq<Obs>)
    ensures SortedByDate(r)
    ensures multiset(r) == multiset(s)
  {
    if s == [] then [] else
      assert s == [s[0]] + s[1..];
      InsertByDate(s[0], SortByDate(s[1..]))
  }

  /** Lines 59-65: coerce, drop incomplete rows, sort by date. */
  function Clean<C>(dates: seq<C>, values: seq<C>,
                    parseDate: C -> Option<int>, parseValue: C -> Option<real>): seq<Obs>
    requires |dates| == |values|
  {
    SortByDate(DropMissing(dates, values, parseDate, parseValue))
  }

  /** The cleaned rows are in date order and are a permutation of the rows that
      parsed: nothing is added, changed, de-duplicated or filtered by range.
      A row is kept exactly when some input row parses to it, once per such
      row. */
  lemma CleanSortedPermutation<C>(dates: seq<C>, values: seq<C>,
                                  parseDate: C -> Option<int>, parseValue: C -> Option<real>)
    requires |dates| == |values|
    ensures SortedByDate(Clean(dates, values, parseDate, parseValue))
    ensures multiset(Clean(dates, values, parseDate, parseValue))
         == multiset(DropMissing(dates, values, parseDate, parseValue))
    ensures |Clean(dates, values, parseDate, parseValue)| <= |dates|
    ensures forall o: Obs :: o in Clean(dates, values, parseDate, parseValue) <==>
      exists i | 0 <= i < |dates| :: ParsesTo(dates, values, i, parseDate, parseValue, o)
    ensures forall o: Obs :: multiset(Clean(dates, values, parseDate, parseValue))[o]
                          == |RowsParsingTo(dates, values, parseDate, parseValue, o)|
  {
    var kept := DropMissing(dates, values, parseDate, parseValue);
    var r := Clean(dates, values, parseDate, parseValue);
    assert |r| == |multiset(r)| == |multiset(kept)| == |kept|;
    forall o: Obs ensures o in r <==> exists i | 0 <= i < |dates| :: ParsesTo(dates, values, i, parseDate, parseValue, o) {
      assert o in r <==> o in multiset(r);
      assert o in kept <==> o in multiset(kept);
      DropMissingMembers(dates, values, parseDate, parseValue, o);
    }
    forall o: Obs ensures multiset(r)[o] == |RowsParsingTo(dates, values, parseDate, parseValue, o)| {
      DropMissingMultiplicity(dates, values, parseDate, parseValue, o);
    }
  }

  /** A row is kept exactly when both of its cells parse. */
  lemma {:induction false} DropMissingCount<C>(dates: seq<C>, values: seq<C>,
                                            parseDate: C -> Option<int>, parseValue: C -> Option<real>)
    requires |dates| == |values|
    requires forall i | 0 <= i < |dates| :: parseDate(dates[i]).Some? && parseValue(values[i]).Some?
    ensures |DropMissing(dates, values, parseDate, parseValue)| == |dates|
  {
    if dates != [] {
      DropMissingCount(dates[1..], values[1..], parseDate, parseValue);
    }
  }
}
