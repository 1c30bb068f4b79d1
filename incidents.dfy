/** The trend / distribution branch for incident-style sheets: date coercion,
    the date-range filter, the per-column inclusion filters, the dominant value
    of each categorical column and the month-bucketed trend table. */
module Incidents {
  import opened Tables
  import opened SeriesOps
  import Dicts

  // ---------------------------------------------------------------------------
  // Date coercion and the date-range filter

  /** Date coercion of an already-parsed cell: a day stays a day, anything else
      becomes a missing date (NaT). */
  function CoerceCell(c: Option<Value>): Option<Value>
  {
    if c.Some? && c.value.Day? then c else None
  }

  function CoerceRow(r: Row): Row
  {
    r[DateColumn := CoerceCell(Get(r, DateColumn))]
  }

  /** Coercion of the date column: every row's date cell is coerced, the
      columns and the number of rows stay as they are. */
  function CoerceDates(t: Table): (c: Table)
    ensures c.columns == t.columns && |c.rows| == |t.rows|
    ensures forall i :: 0 <= i < |t.rows| ==> c.rows[i] == CoerceRow(t.rows[i])
  {
    Table(t.columns, seq(|t.rows|, i requires 0 <= i < |t.rows| => CoerceRow(t.rows[i])))
  }

  /** Coercing twice is coercing once. */
  lemma CoerceRowTwice(r: Row)
    ensures CoerceRow(CoerceRow(r)) == CoerceRow(r)
  {
    var c := CoerceRow(r);
    assert CoerceRow(c) == c[DateColumn := c[DateColumn]];
  }

  /** The row has a date and it lies in [start, end], both ends included;
      a missing date compares false. */
  predicate InRange(r: Row, start: Date, end: Date)
  {
    var c := Get(r, DateColumn);
    c.Some? && c.value.Day? && DateLe(start, c.value.date) && DateLe(c.value.date, end)
  }

  /** The table as the category filters receive it: dates coerced when the
      sheet has a date column. */
  function Prepared(t: Table): Table
  {
    if DateColumn in t.columns then CoerceDates(t) else t
  }

  /** Step 1: coerce and keep the rows dated within the range, when there is a date column. */
  function DateStage(t: Table, start: Date, end: Date): Table
  {
    if DateColumn in t.columns then Table(t.columns, Keep(CoerceDates(t).rows, r => InRange(r, start, end)))
    else t
  }

  // ---------------------------------------------------------------------------
  // Category filters

  /** The multiselect's options: the distinct non-missing values of the column. */
  function Options(t: Table, column: string): seq<Value>
  {
    Distinct(ColumnValues(t.rows, column))
  }

  /** The user's selection for a column; without one the widget's default,
      every option. */
  function Selection(t: Table, column: string, selections: map<string, seq<Value>>): seq<Value>
  {
    if column in selections then selections[column] else Options(t, column)
  }

  /** Membership in the selected values; a missing value is never selected. */
  predicate IsSelected(r: Row, column: string, selected: seq<Value>)
  {
    Get(r, column).Some? && Get(r, column).value in selected
  }

  /** The inclusion filter of one column: when the column exists, keep the
      rows whose value was selected. */
  function ByColumn(t: Table, column: string, selections: map<string, seq<Value>>): Table
  {
    if column in t.columns then
      var selected := Selection(t, column, selections);
      Table(t.columns, Keep(t.rows, r => IsSelected(r, column, selected)))
    else t
  }

  function ByColumns(t: Table, columns: seq<string>, selections: map<string, seq<Value>>): Table
    decreases |columns|
  {
    if columns == [] then t
    else ByColumn(ByColumns(t, columns[..|columns| - 1], selections), columns[|columns| - 1], selections)
  }

  /** The table left after the date filter and the category filters. */
  function Filtered(t: Table, start: Date, end: Date, selections: map<string, seq<Value>>): Table
  {
    ByColumns(DateStage(t, start, end), CategoryColumns, selections)
  }

  /** The filter block: the date filter, then one inclusion filter per
      categorical column present, each reassigning the table. */
  method ApplyFilters(t: Table, start: Date, end: Date, selections: map<string, seq<Value>>) returns (f: Table)
    ensures f == Filtered(t, start, end, selections)
  {
    f := t;
    if DateColumn in f.columns {
      f := CoerceDates(f);
      f := Table(f.columns, Keep(f.rows, r => InRange(r, start, end)));
    }
    ghost var dated := f;
    for i := 0 to |CategoryColumns|
      invariant f == ByColumns(dated, CategoryColumns[..i], selections)
    {
      var column := CategoryColumns[i];
      if column in f.columns {
        var options := Distinct(ColumnValues(f.rows, column));
        var selected := if column in selections then selections[column] else options;
        f := Table(f.columns, Keep(f.rows, r => IsSelected(r, column, selected)));
      }
      assert CategoryColumns[..i + 1][..i] == CategoryColumns[..i];
    }
    assert CategoryColumns[..|CategoryColumns|] == CategoryColumns;
  }

  /** What a row must satisfy to pass the filter of one categorical column:
      when the column exists, a value, and one the user selected if the user
      made a selection (the default selection is every value present). */
  predicate PassesColumn(r: Row, column: string, columns: seq<string>, selections: map<string, seq<Value>>)
  {
    column in columns ==>
      Get(r, column).Some? && (column in selections ==> Get(r, column).value in selections[column])
  }

  predicate PassesColumns(r: Row, cats: seq<string>, columns: seq<string>, selections: map<string, seq<Value>>)
  {
    forall c :: c in cats ==> PassesColumn(r, c, columns, selections)
  }

  /** What a row of the prepared table must satisfy to be kept. */
  predicate Accepts(r: Row, columns: seq<string>, start: Date, end: Date, selections: map<string, seq<Value>>)
  {
    (DateColumn in columns ==> InRange(r, start, end)) && PassesColumns(r, CategoryColumns, columns, selections)
  }

  /** Against the default selection a row passes exactly when it has a value. */
  lemma SelectedByDefault(t: Table, column: string, r: Row)
    requires r in t.rows
    ensures IsSelected(r, column, Options(t, column)) <==> Get(r, column).Some?
  {
    if Get(r, column).Some? {
      var i :| 0 <= i < |t.rows| && t.rows[i] == r;
      assert Get(t.rows[i], column) == Some(Get(r, column).value);
    }
  }

  /** The staged category filters select what one combined filter selects. */
  lemma {:induction false} ByColumnsIsKeep(d: Table, cats: seq<string>, selections: map<string, seq<Value>>)
    ensures ByColumns(d, cats, selections) == Table(d.columns, Keep(d.rows, r => PassesColumns(r, cats, d.columns, selections)))
    decreases |cats|
  {
    var all := r => PassesColumns(r, cats, d.columns, selections);
    if cats == [] {
      KeepAll(d.rows, all);
    } else {
      var n := |cats| - 1;
      var c := cats[n];
      var before := r => PassesColumns(r, cats[..n], d.columns, selections);
      var here := r => PassesColumn(r, c, d.columns, selections);
      assert forall x :: x in cats <==> x in cats[..n] || x == c by {
        assert cats == cats[..n] + [c];
      }
      assert forall x :: all(x) == (before(x) && here(x));
      ByColumnsIsKeep(d, cats[..n], selections);
      var b := ByColumns(d, cats[..n], selections);
      assert b == Table(d.columns, Keep(d.rows, before));
      if c in d.columns {
        var selected := Selection(b, c, selections);
        var mask := r => IsSelected(r, c, selected);
        forall x | x in b.rows ensures mask(x) == here(x) {
          if c !in selections { SelectedByDefault(b, c, x); }
        }
        KeepCongruent(b.rows, mask, here);
        KeepBoth(d.rows, before, here, all);
      } else {
        KeepCongruent(d.rows, before, all);
      }
    }
  }

  /** The filter block as a whole: the kept rows are exactly the rows of the
      prepared table that satisfy `Accepts`, in their original order. */
  lemma FilterSpec(t: Table, start: Date, end: Date, selections: map<string, seq<Value>>)
    ensures var f := Filtered(t, start, end, selections);
      && f.columns == t.columns
      && f.rows == Keep(Prepared(t).rows, r => Accepts(r, t.columns, start, end, selections))
      && IsSubsequence(f.rows, Prepared(t).rows)
      && (forall r :: r in f.rows <==> r in Prepared(t).rows && Accepts(r, t.columns, start, end, selections))
  {
    var d := DateStage(t, start, end);
    ByColumnsIsKeep(d, CategoryColumns, selections);
    var cats := r => PassesColumns(r, CategoryColumns, t.columns, selections);
    var all := r => Accepts(r, t.columns, start, end, selections);
    if DateColumn in t.columns {
      KeepBoth(CoerceDates(t).rows, r => InRange(r, start, end), cats, all);
    } else {
      KeepCongruent(t.rows, cats, all);
    }
    KeepSubsequence(Prepared(t).rows, all);
  }

  /** Every kept row is dated within the range (when the sheet has dates) and
      has, in every filtered column, a value the user selected. */
  lemma FilteredRows(t: Table, start: Date, end: Date, selections: map<string, seq<Value>>)
    ensures var f := Filtered(t, start, end, selections);
      forall r :: r in f.rows && DateColumn in t.columns ==> InRange(r, start, end)
    ensures var f := Filtered(t, start, end, selections);
      forall r, c :: r in f.rows && c in CategoryColumns && c in t.columns ==>
        && Get(r, c).Some?
        && (c in selections ==> Get(r, c).value in selections[c])
  {
    FilterSpec(t, start, end, selections);
  }

  /** The filtered table's dates are already coerced. */
  lemma FilteredIsPrepared(t: Table, start: Date, end: Date, selections: map<string, seq<Value>>)
    ensures Prepared(Filtered(t, start, end, selections)) == Filtered(t, start, end, selections)
  {
    var f := Filtered(t, start, end, selections);
    FilterSpec(t, start, end, selections);
    if DateColumn in t.columns {
      forall i | 0 <= i < |f.rows| ensures CoerceRow(f.rows[i]) == f.rows[i] {
        assert f.rows[i] in Prepared(t).rows;
        var j :| 0 <= j < |t.rows| && CoerceDates(t).rows[j] == f.rows[i];
        CoerceRowTwice(t.rows[j]);
      }
      assert CoerceDates(f).rows == f.rows;
    }
  }

  /** Filtering an already filtered table with the same choices changes nothing. */
  lemma FilterIdempotent(t: Table, start: Date, end: Date, selections: map<string, seq<Value>>)
    ensures Filtered(Filtered(t, start, end, selections), start, end, selections) == Filtered(t, start, end, selections)
  {
    var f := Filtered(t, start, end, selections);
    FilterSpec(t, start, end, selections);
    FilteredIsPrepared(t, start, end, selections);
    FilterSpec(f, start, end, selections);
    KeepAll(f.rows, r => Accepts(r, f.columns, start, end, selections));
  }

  /** Every row's value is present in each categorical column the table has. */
  predicate Screened(t: Table)
  {
    forall c, r :: c in CategoryColumns && c in t.columns && r in t.rows ==> Get(r, c).Some?
  }

  /** Every row carries a date when the table has a date column. */
  predicate Dated(t: Table)
  {
    DateColumn in t.columns ==> forall r :: r in t.rows ==> HasDate(r)
  }

  /** The filtered table is screened and dated. */
  lemma FilteredIsScreened(t: Table, start: Date, end: Date, selections: map<string, seq<Value>>)
    ensures Screened(Filtered(t, start, end, selections))
    ensures Dated(Filtered(t, start, end, selections))
  {
    FilterSpec(t, start, end, selections);
  }

  // ---------------------------------------------------------------------------
  // Summary

  /** The first mode of a column, computed when the column exists and the table is
      not empty; on a screened table the column then has values. */
  function Dominant(t: Table, column: string): (m: Option<Value>)
    requires Screened(t)
    requires column in CategoryColumns
    ensures m.Some? <==> column in t.columns && |t.rows| > 0
    ensures m.Some? ==> m.value in ColumnValues(t.rows, column)
    ensures m.Some? ==> forall v :: Count(ColumnValues(t.rows, column), v) <= Count(ColumnValues(t.rows, column), m.value)
  {
    if column in t.columns && |t.rows| > 0 then
      assert t.rows[0] in t.rows;
      assert Get(t.rows[0], column).value in ColumnValues(t.rows, column);
      Some(Mode(ColumnValues(t.rows, column)))
    else None
  }

  const KindLabel := "Jenis terbanyak"
  const SeverityLabel := "Severity dominan"
  const StatusLabel := "Status dominan"

  function DominantEntry(t: Table, column: string, tag: string): seq<(string, Value)>
    requires Screened(t)
    requires column in CategoryColumns
  {
    match Dominant(t, column)
    case Some(v) => [(tag, v)]
    case None => []
  }

  /** The per-sheet summary: labelled dominant values in a fixed order, and the
      trend table, which the source keeps under the key "Trend". */
  datatype Summary = Summary(dominant: Dicts.Dict<Value>, trend: Option<seq<Entry<Month>>>)

  function Summarise(t: Table): Summary
    requires Screened(t)
  {
    var dominant := DominantEntry(t, KindColumn, KindLabel)
      + DominantEntry(t, SeverityColumn, SeverityLabel)
      + DominantEntry(t, StatusColumn, StatusLabel);
    Summary(dominant, if DateColumn in t.columns then Some(TrendOf(t.rows)) else None)
  }

  /** The summary holds under each label the dominant value of its column,
      exactly when the column exists and the table is not empty, each label at
      most once and in the fixed order kind, severity, status; it holds a
      trend table exactly when the table has a date column. */
  lemma SummarySpec(t: Table)
    requires Screened(t)
    ensures var s := Summarise(t);
      && Dicts.Lookup(s.dominant, KindLabel) == Dominant(t, KindColumn)
      && Dicts.Lookup(s.dominant, SeverityLabel) == Dominant(t, SeverityColumn)
      && Dicts.Lookup(s.dominant, StatusLabel) == Dominant(t, StatusColumn)
      && NoDup(Dicts.Keys(s.dominant))
      && IsSubsequence(Dicts.Keys(s.dominant), [KindLabel, SeverityLabel, StatusLabel])
      && (s.trend.Some? <==> DateColumn in t.columns)
      && (s.trend.Some? ==> s.trend.value == TrendOf(t.rows))
  {
    SummaryLookups(t);
    SummaryLabels(t);
  }

  lemma SummaryLookups(t: Table)
    requires Screened(t)
    ensures Dicts.Lookup(Summarise(t).dominant, KindLabel) == Dominant(t, KindColumn)
    ensures Dicts.Lookup(Summarise(t).dominant, SeverityLabel) == Dominant(t, SeverityColumn)
    ensures Dicts.Lookup(Summarise(t).dominant, StatusLabel) == Dominant(t, StatusColumn)
  {
    var a := DominantEntry(t, KindColumn, KindLabel);
    var b := DominantEntry(t, SeverityColumn, SeverityLabel);
    var c := DominantEntry(t, StatusColumn, StatusLabel);
    assert Summarise(t).dominant == a + (b + c) by { Assoc(a, b, c); }
    DominantEntryLookup(t, KindColumn, KindLabel);
    DominantEntryLookup(t, SeverityColumn, SeverityLabel);
    DominantEntryLookup(t, StatusColumn, StatusLabel);
    assert KindLabel[0] != SeverityLabel[0] && KindLabel[0] != StatusLabel[0];
    assert SeverityLabel[1] != StatusLabel[1];
    LookupPieces(a, b, c, KindLabel, SeverityLabel, StatusLabel);
  }

  /** In three dictionaries holding at most one distinct key each, every key is
      looked up in its own piece. */
  lemma LookupPieces<V>(a: Dicts.Dict<V>, b: Dicts.Dict<V>, c: Dicts.Dict<V>, x: string, y: string, z: string)
    requires forall k :: k != x ==> k !in Dicts.Keys(a)
    requires forall k :: k != y ==> k !in Dicts.Keys(b)
    requires forall k :: k != z ==> k !in Dicts.Keys(c)
    requires x != y && x != z && y != z
    ensures Dicts.Lookup(a + (b + c), x) == Dicts.Lookup(a, x)
    ensures Dicts.Lookup(a + (b + c), y) == Dicts.Lookup(b, y)
    ensures Dicts.Lookup(a + (b + c), z) == Dicts.Lookup(c, z)
  {
    assert y !in Dicts.Keys(a) && z !in Dicts.Keys(a) && z !in Dicts.Keys(b);
    assert Dicts.Lookup(a + (b + c), x) == Dicts.Lookup(a, x) by {
      LookupAppend(a, b + c, x);
      LookupAppend(b, c, x);
    }
    assert Dicts.Lookup(a + (b + c), y) == Dicts.Lookup(b, y) by {
      LookupAppend(a, b + c, y);
      LookupAppend(b, c, y);
    }
    assert Dicts.Lookup(a + (b + c), z) == Dicts.Lookup(c, z) by {
      LookupAppend(a, b + c, z);
      LookupAppend(b, c, z);
    }
  }

  lemma SummaryLabels(t: Table)
    requires Screened(t)
    ensures NoDup(Dicts.Keys(Summarise(t).dominant))
    ensures IsSubsequence(Dicts.Keys(Summarise(t).dominant), [KindLabel, SeverityLabel, StatusLabel])
  {
    var a := DominantEntry(t, KindColumn, KindLabel);
    var b := DominantEntry(t, SeverityColumn, SeverityLabel);
    var c := DominantEntry(t, StatusColumn, StatusLabel);
    var ka, kb, kc := Dicts.Keys(a), Dicts.Keys(b), Dicts.Keys(c);
    assert Dicts.Keys(Summarise(t).dominant) == ka + (kb + kc) by {
      Assoc(a, b, c);
      Dicts.KeysAppend(a, b + c);
      Dicts.KeysAppend(b, c);
    }
    DominantEntryLookup(t, KindColumn, KindLabel);
    DominantEntryLookup(t, SeverityColumn, SeverityLabel);
    DominantEntryLookup(t, StatusColumn, StatusLabel);
    assert KindLabel[0] != SeverityLabel[0] && KindLabel[0] != StatusLabel[0];
    assert SeverityLabel[1] != StatusLabel[1];
    OptionalPieces(ka, kb, kc, KindLabel, SeverityLabel, StatusLabel);
  }

  /** A dominant entry holds at most its own label, with the column's dominant value. */
  lemma DominantEntryLookup(t: Table, column: string, tag: string)
    requires Screened(t)
    requires column in CategoryColumns
    ensures Dicts.Lookup(DominantEntry(t, column, tag), tag) == Dominant(t, column)
    ensures forall k :: k != tag ==> k !in Dicts.Keys(DominantEntry(t, column, tag))
    ensures Dicts.Keys(DominantEntry(t, column, tag)) == [] || Dicts.Keys(DominantEntry(t, column, tag)) == [tag]
  {
  }

  lemma {:induction false} LookupAppend<V>(a: Dicts.Dict<V>, b: Dicts.Dict<V>, k: string)
    ensures Dicts.Lookup(a + b, k) == if k in Dicts.Keys(a) then Dicts.Lookup(a, k) else Dicts.Lookup(b, k)
  {
    if a != [] {
      assert (a + b)[1..] == a[1..] + b;
      assert a == [a[0]] + a[1..];
      Dicts.KeysCons(a[0], a[1..]);
      assert (a + b)[0] == a[0];
      LookupAppend(a[1..], b, k);
    } else {
      assert a + b == b;
    }
  }

  // ---------------------------------------------------------------------------
  // Trend table

  predicate HasDate(r: Row)
  {
    Get(r, DateColumn).Some? && Get(r, DateColumn).value.Day?
  }

  /** The month of every dated row, in row order (missing dates are skipped,
      as the group-by drops them). */
  function RowMonths(rows: seq<Row>): (ms: seq<Month>)
    ensures |ms| == |Keep(rows, r => HasDate(r))|
    ensures forall m :: m in ms <==>
      exists i :: 0 <= i < |rows| && HasDate(rows[i]) && MonthOf(Get(rows[i], DateColumn).value.date) == m
  {
    if rows == [] then []
    else
      var rest := RowMonths(rows[1..]);
      assert forall i :: 1 <= i < |rows| ==> rows[i] == rows[1..][i - 1];
      if HasDate(rows[0]) then [MonthOf(Get(rows[0], DateColumn).value.date)] + rest else rest
  }

  predicate Ascending(ms: seq<Month>)
  {
    forall i, j :: 0 <= i < j < |ms| ==> Before(ms[i], ms[j])
  }

  lemma AscendingNoDup(ms: seq<Month>)
    requires Ascending(ms)
    ensures NoDup(ms)
  {
  }

  /** Insertion into a strictly ascending list of months, keeping it a set. */
  function InsertMonth(m: Month, ms: seq<Month>): (r: seq<Month>)
    requires Ascending(ms)
    ensures Ascending(r)
    ensures forall x :: x in r <==> x == m || x in ms
  {
    if ms == [] then [m]
    else if m == ms[0] then ms
    else if Before(m, ms[0]) then [m] + ms
    else
      var rest := InsertMonth(m, ms[1..]);
      assert forall x :: x in ms <==> x == ms[0] || x in ms[1..] by {
        assert ms == [ms[0]] + ms[1..];
      }
      assert forall j :: 0 <= j < |rest| ==> Before(ms[0], rest[j]) by {
        forall j | 0 <= j < |rest| ensures Before(ms[0], rest[j]) {
          assert rest[j] in rest;
          if rest[j] != m {
            var i :| 0 <= i < |ms[1..]| && ms[1..][i] == rest[j];
            assert ms[i + 1] == rest[j];
          }
        }
      }
      [ms[0]] + rest
  }

  /** The distinct months, in chronological order (the group-by's sorted keys). */
  function SortedMonths(ms: seq<Month>): (r: seq<Month>)
    ensures Ascending(r)
    ensures forall x :: x in r <==> x in ms
  {
    if ms == [] then []
    else
      assert forall x :: x in ms <==> x == ms[0] || x in ms[1..] by {
        assert ms == [ms[0]] + ms[1..];
      }
      InsertMonth(ms[0], SortedMonths(ms[1..]))
  }

  /** The number of dated rows per calendar month, months in ascending order. */
  function TrendOf(rows: seq<Row>): seq<Entry<Month>>
  {
    var ms := RowMonths(rows);
    Tally(SortedMonths(ms), ms)
  }

  /** The trend table lists each month that has a dated row, once, in
      chronological order, with the number of dated rows in that month; every
      count is positive and they sum to the number of dated rows. */
  lemma TrendSpec(rows: seq<Row>)
    ensures var tr := TrendOf(rows);
      && Ascending(KeysOf(tr))
      && NoDup(KeysOf(tr))
      && (forall m :: m in KeysOf(tr) <==> m in RowMonths(rows))
      && (forall i :: 0 <= i < |tr| ==> tr[i].count == Count(RowMonths(rows), tr[i].key) && tr[i].count > 0)
      && Total(tr) == |Keep(rows, r => HasDate(r))|
  {
    var ms := RowMonths(rows);
    var ks := SortedMonths(ms);
    var tr := TrendOf(rows);
    assert KeysOf(tr) == ks by {
      TallyKeys(ks, ms);
    }
    assert NoDup(ks) by {
      AscendingNoDup(ks);
    }
    assert forall i :: 0 <= i < |tr| ==> tr[i].count == Count(ms, tr[i].key) && tr[i].count > 0 by {
      forall i | 0 <= i < |tr| ensures tr[i].count == Count(ms, tr[i].key) && tr[i].count > 0 {
        assert ks[i] in ks;
      }
    }
    assert Total(tr) == |ms| by {
      TallyTotal(ks, ms);
    }
  }

  /** On a filtered table every row is dated, so the trend counts every row. */
  lemma TrendCountsEveryRow(t: Table)
    requires Dated(t) && DateColumn in t.columns
    ensures Total(TrendOf(t.rows)) == |t.rows|
  {
    TrendSpec(t.rows);
    KeepAll(t.rows, r => HasDate(r));
  }

  // ---------------------------------------------------------------------------
  // Month labels

  function DigitChar(d: nat): (c: char)
    requires d < 10
    ensures IsDigit(c) && DigitValue(c) == d
  {
    ('0' as int + d) as char
  }

  predicate IsDigit(c: char)
  {
    '0' <= c <= '9'
  }

  function DigitValue(c: char): int
  {
    c as int - '0' as int
  }

  predicate AllDigits(s: string)
  {
    forall i :: 0 <= i < |s| ==> IsDigit(s[i])
  }

  /** The number a string of decimal digits spells, most significant first. */
  function DigitsValue(s: string): nat
    requires AllDigits(s)
  {
    if s == [] then 0 else DigitsValue(s[..|s| - 1]) * 10 + DigitValue(s[|s| - 1])
  }

  /** Decimal digits of `n`, most significant first. */
  function Decimal(n: nat): (s: string)
    ensures |s| >= 1
  {
    if n < 10 then [DigitChar(n)] else Decimal(n / 10) + [DigitChar(n % 10)]
  }

  /** `Decimal` spells its argument. */
  lemma {:induction false} DecimalValue(n: nat)
    ensures AllDigits(Decimal(n)) && DigitsValue(Decimal(n)) == n
  {
    if n < 10 {
      assert Decimal(n)[..0] == [];
    } else {
      var s := Decimal(n);
      DecimalValue(n / 10);
      assert s[..|s| - 1] == Decimal(n / 10);
    }
  }

  function ZeroPad(s: string, width: nat): (r: string)
    ensures |r| == if |s| >= width then |s| else width
    decreases width - |s|
  {
    if |s| >= width then s else ZeroPad("0" + s, width)
  }

  /** A leading zero does not change the number. */
  lemma {:induction false} LeadingZero(s: string)
    requires AllDigits(s)
    ensures AllDigits("0" + s) && DigitsValue("0" + s) == DigitsValue(s)
    decreases |s|
  {
    assert AllDigits("0" + s) by {
      forall i | 0 <= i < |"0" + s| ensures IsDigit(("0" + s)[i]) {
        if i > 0 { assert ("0" + s)[i] == s[i - 1]; }
      }
    }
    if s != [] {
      var z := "0" + s;
      assert z[..|z| - 1] == "0" + s[..|s| - 1];
      assert z[|z| - 1] == s[|s| - 1];
      LeadingZero(s[..|s| - 1]);
    }
  }

  /** Padding with zeros keeps the digits and the number they spell. */
  lemma {:induction false} ZeroPadValue(s: string, width: nat)
    requires AllDigits(s)
    ensures AllDigits(ZeroPad(s, width)) && DigitsValue(ZeroPad(s, width)) == DigitsValue(s)
    decreases width - |s|
  {
    if |s| < width {
      LeadingZero(s);
      ZeroPadValue("0" + s, width);
    }
  }

  /** A month whose label has the fixed width: a year of at most four digits and
      a month of at most two. */
  predicate ShortMonth(m: Month)
  {
    m.year < 10000 && m.month < 100
  }

  /** The printed form of a month period: "YYYY-MM". */
  function MonthLabel(m: Month): (text: string)
    ensures ShortMonth(m) ==> |text| == 7 && text[4] == '-'
  {
    var y, mm := ZeroPad(Decimal(m.year), 4), ZeroPad(Decimal(m.month), 2);
    if ShortMonth(m) then
      DecimalShort(m.year);
      DecimalShort(m.month);
      y + "-" + mm
    else
      y + "-" + mm
  }

  /** Reads a "YYYY-MM" label back into its month. */
  function ParseMonthLabel(text: string): (m: Option<Month>)
    ensures m.Some? ==> ShortMonth(m.value)
  {
    if |text| == 7 && text[4] == '-' && AllDigits(text[..4]) && AllDigits(text[5..]) then
      DigitsBound(text[..4]);
      DigitsBound(text[5..]);
      Some(Month(DigitsValue(text[..4]), DigitsValue(text[5..])))
    else None
  }

  /** A string of `n` digits spells a number below 10 to the `n`. */
  lemma {:induction false} DigitsBound(s: string)
    requires AllDigits(s)
    ensures |s| == 2 ==> DigitsValue(s) < 100
    ensures |s| == 4 ==> DigitsValue(s) < 10000
  {
    if s != [] {
      var init := s[..|s| - 1];
      assert AllDigits(init) by {
        forall i | 0 <= i < |init| ensures IsDigit(init[i]) { assert init[i] == s[i]; }
      }
      var c := s[|s| - 1];
      assert IsDigit(c);
      if |s| == 2 {
        var d := init[..|init| - 1];
        assert d == [];
        assert DigitsValue(init) < 10;
      } else if |s| == 4 {
        DigitsBound3(init);
      }
    }
  }

  lemma DigitsBound3(s: string)
    requires AllDigits(s) && |s| == 3
    ensures DigitsValue(s) < 1000
  {
    var a := s[..2];
    var b := a[..1];
    var e := b[..0];
    assert AllDigits(a) && IsDigit(s[2]) by { assert forall i :: 0 <= i < 2 ==> a[i] == s[i]; }
    assert AllDigits(b) && IsDigit(a[1]) by { assert b[0] == s[0]; }
    assert IsDigit(b[0]);
    assert DigitsValue(e) == 0;
    assert DigitsValue(b) < 10;
    assert DigitsValue(a) < 100;
  }

  /** Parsing a short month's label gives back the month. */
  lemma MonthLabelRoundTrip(m: Month)
    requires ShortMonth(m)
    ensures ParseMonthLabel(MonthLabel(m)) == Some(m)
  {
    var y, mm := ZeroPad(Decimal(m.year), 4), ZeroPad(Decimal(m.month), 2);
    PaddedField(m.year, 4);
    PaddedField(m.month, 2);
    LabelParts(y, mm);
  }

  /** A number below the field's capacity fills it with digits spelling it. */
  lemma PaddedField(n: nat, width: nat)
    requires (width == 2 && n < 100) || (width == 4 && n < 10000)
    ensures |ZeroPad(Decimal(n), width)| == width
    ensures AllDigits(ZeroPad(Decimal(n), width)) && DigitsValue(ZeroPad(Decimal(n), width)) == n
  {
    DecimalShort(n);
    DecimalValue(n);
    ZeroPadValue(Decimal(n), width);
  }

  lemma LabelParts(y: string, mm: string)
    requires |y| == 4 && |mm| == 2
    ensures var text := y + "-" + mm;
      |text| == 7 && text[4] == '-' && text[..4] == y && text[5..] == mm
  {
    var text := y + "-" + mm;
    assert text[..4] == y;
    assert text[5..] == mm;
  }

  /** Distinct short months have distinct labels. */
  lemma MonthLabelInjective(a: Month, b: Month)
    requires ShortMonth(a) && ShortMonth(b)
    ensures MonthLabel(a) == MonthLabel(b) <==> a == b
  {
    MonthLabelRoundTrip(a);
    MonthLabelRoundTrip(b);
  }

  /** Decimal representation has exactly as many digits as needed. */
  lemma {:induction false} DecimalShort(n: nat)
    ensures n < 10 ==> |Decimal(n)| == 1
    ensures n < 100 ==> |Decimal(n)| <= 2
    ensures n < 1000 ==> |Decimal(n)| <= 3
    ensures n < 10000 ==> |Decimal(n)| <= 4
  {
    if n >= 10 {
      DecimalShort(n / 10);
    }
  }

  /** The trend table as written out: (month label, count) in table order. */
  function TrendRows(tr: seq<Entry<Month>>): (rows: seq<(string, nat)>)
    ensures |rows| == |tr|
    ensures forall i :: 0 <= i < |tr| ==> rows[i] == (MonthLabel(tr[i].key), tr[i].count)
  {
    seq(|tr|, i requires 0 <= i < |tr| => (MonthLabel(tr[i].key), tr[i].count))
  }

  /** A trend table over distinct short months has one row per label. */
  lemma TrendRowsDistinct(tr: seq<Entry<Month>>)
    requires forall i, j :: 0 <= i < j < |tr| ==> tr[i].key != tr[j].key
    requires forall i :: 0 <= i < |tr| ==> ShortMonth(tr[i].key)
    ensures forall i, j :: 0 <= i < j < |tr| ==> TrendRows(tr)[i].0 != TrendRows(tr)[j].0
  {
    forall i, j | 0 <= i < j < |tr| ensures TrendRows(tr)[i].0 != TrendRows(tr)[j].0 {
      MonthLabelInjective(tr[i].key, tr[j].key);
    }
  }

  /** The trend table of dated rows with short months repeats no month label. */
  lemma TrendLabelsDistinct(rows: seq<Row>)
    requires forall m :: m in RowMonths(rows) ==> ShortMonth(m)
    ensures var tr := TrendOf(rows);
      forall i, j :: 0 <= i < j < |tr| ==> TrendRows(tr)[i].0 != TrendRows(tr)[j].0
  {
    var tr := TrendOf(rows);
    TrendSpec(rows);
    assert forall i :: 0 <= i < |tr| ==> tr[i].key == KeysOf(tr)[i];
    assert forall i :: 0 <= i < |tr| ==> ShortMonth(tr[i].key) by {
      forall i | 0 <= i < |tr| ensures ShortMonth(tr[i].key) {
        assert KeysOf(tr)[i] in KeysOf(tr);
      }
    }
    TrendRowsDistinct(tr);
  }

  /** The value counts of a column of a filtered table. */
  function CountsOf(t: Table, column: string): seq<Entry<Value>>
  {
    ValueCounts(ColumnValues(t.rows, column))
  }

  /** On a screened table the frequency table of a present categorical column
      accounts for every row, and is empty only when the table is. */
  lemma CountsCoverRows(t: Table, column: string)
    requires Screened(t) && column in CategoryColumns && column in t.columns
    ensures Total(CountsOf(t, column)) == |t.rows|
    ensures |CountsOf(t, column)| > 0 <==> |t.rows| > 0
  {
    ScreenedColumnValues(t.rows, column);
    ValueCountsSpec(ColumnValues(t.rows, column));
    if |t.rows| > 0 {
      assert Get(t.rows[0], column).value in ColumnValues(t.rows, column);
      assert Get(t.rows[0], column).value in KeysOf(CountsOf(t, column));
    }
  }

  /** When every row has a value in the column, the column has one value per row. */
  lemma {:induction false} ScreenedColumnValues(rows: seq<Row>, column: string)
    requires forall r :: r in rows ==> Get(r, column).Some?
    ensures |ColumnValues(rows, column)| == |rows|
  {
    if rows != [] {
      assert rows[0] in rows;
      assert forall r :: r in rows[1..] ==> r in rows;
      ScreenedColumnValues(rows[1..], column);
    }
  }
}
