/** The plan of the spreadsheet report: which tabs are written, in which
    order, with what data, and which chart each tab carries. The file bytes,
    cell styling and chart drawing are not part of the model. */
module ExcelReport {
  import opened Tables
  import opened SeriesOps
  import opened Dicts
  import opened Incidents

  /** The data labels a chart series shows. */
  datatype DataLabels = NoLabels | Percentage | ValueLabels

  /** A block of cells `[sheet, first_row, first_col, last_row, last_col]`, zero-based. */
  datatype CellRange = CellRange(sheet: string, firstRow: nat, firstCol: nat, lastRow: nat, lastCol: nat)

  /** A chart with its one series. */
  datatype Chart = Chart(
    kind: string,
    seriesName: string,
    categories: CellRange,
    values: CellRange,
    labels: DataLabels,
    title: string,
    axes: Option<(string, string)>,
    anchor: string)

  /** What a tab holds: a stored table, a trend table or a frequency table;
      the two small tables come with their header row. */
  datatype TabData =
    | RawTable(table: Table)
    | TrendData(header: seq<string>, rows: seq<(string, nat)>)
    | CountData(header: seq<string>, counts: seq<Entry<Value>>)

  datatype Tab = Tab(name: string, data: TabData, chart: Option<Chart>)

  const TrendSuffix := "_Trend"
  const CountHeader := "Jumlah"
  const TrendHeader: seq<string> := [DateColumn, CountHeader]
  const DefaultTrendKind := "line"
  const DefaultCountKind := "column"
  const PieKind := "pie"
  const ChartAnchor := "E2"

  /** `d.get(k, default)`. */
  function LookupOr(d: Dict<string>, k: string, default: string): (v: string)
    ensures k in Keys(d) ==> Lookup(d, k) == Some(v)
    ensures k !in Keys(d) ==> v == default
  {
    match Lookup(d, k)
    case Some(v) => v
    case None => default
  }

  /** Number of data rows below the header of a tab. */
  function DataRows(data: TabData): nat
  {
    match data
    case RawTable(t) => |t.rows|
    case TrendData(_, rows) => |rows|
    case CountData(_, counts) => |counts|
  }

  /** The trend of a stored sheet, when the sheet has a stored summary and
      that summary has a trend entry. */
  function TrendFor(summaries: Dict<Summary>, sheet: string): Option<seq<Entry<Month>>>
  {
    match Lookup(summaries, sheet)
    case Some(s) => s.trend
    case None => None
  }

  /** A frequency tab is written for a categorical column the table has,
      when the table has rows (a present but empty column gets no tab). */
  predicate Charted(df: Table, column: string)
  {
    column in df.columns && |df.rows| > 0
  }

  function TrendTab(sheet: string, tr: seq<Entry<Month>>, types: Dict<string>): Tab
  {
    var name := sheet + TrendSuffix;
    var rows := TrendRows(tr);
    var chart := Chart(LookupOr(types, name, DefaultTrendKind), "Trend " + sheet,
      CellRange(name, 1, 0, |rows|, 0), CellRange(name, 1, 1, |rows|, 1),
      NoLabels, "Trend " + sheet, Some(("Bulan", CountHeader)), ChartAnchor);
    Tab(name, TrendData(TrendHeader, rows), Some(chart))
  }

  function CountTab(sheet: string, column: string, df: Table, types: Dict<string>): Tab
  {
    var name := sheet + "_" + column;
    var counts := CountsOf(df, column);
    var kind := LookupOr(types, name, DefaultCountKind);
    var chart := Chart(kind, "Distribusi " + column + " - " + sheet,
      CellRange(name, 1, 0, |counts|, 0), CellRange(name, 1, 1, |counts|, 1),
      if kind == PieKind then Percentage else ValueLabels, "Distribusi " + column, None, ChartAnchor);
    Tab(name, CountData([column, CountHeader], counts), Some(chart))
  }

  // ---------------------------------------------------------------------------
  // The workbook, as a function of the three stores

  function CountTabs(sheet: string, df: Table, columns: seq<string>, types: Dict<string>): seq<Tab>
    decreases |columns|
  {
    if columns == [] then []
    else
      var c := columns[|columns| - 1];
      CountTabs(sheet, df, columns[..|columns| - 1], types)
        + (if Charted(df, c) then [CountTab(sheet, c, df, types)] else [])
  }

  function TrendTabs(sheet: string, summaries: Dict<Summary>, types: Dict<string>): seq<Tab>
  {
    match TrendFor(summaries, sheet)
    case Some(tr) => [TrendTab(sheet, tr, types)]
    case None => []
  }

  function SheetTabs(sheet: string, df: Table, summaries: Dict<Summary>, types: Dict<string>): seq<Tab>
  {
    [Tab(sheet, RawTable(df), None)] + TrendTabs(sheet, summaries, types)
      + CountTabs(sheet, df, CategoryColumns, types)
  }

  function Workbook(dfs: Dict<Table>, summaries: Dict<Summary>, types: Dict<string>): seq<Tab>
    decreases |dfs|
  {
    if dfs == [] then []
    else
      var last := dfs[|dfs| - 1];
      Workbook(dfs[..|dfs| - 1], summaries, types) + SheetTabs(last.0, last.1, summaries, types)
  }

  // ---------------------------------------------------------------------------
  // The writer

  /** `export_excel`: writes the tabs one by one, sheet by sheet. */
  method ExportExcel(dfs: Dict<Table>, summaries: Dict<Summary>, types: Dict<string>) returns (tabs: seq<Tab>)
    ensures tabs == Workbook(dfs, summaries, types)
  {
    tabs := [];
    for i := 0 to |dfs|
      invariant tabs == Workbook(dfs[..i], summaries, types)
    {
      var sheet := dfs[i].0;
      var df := dfs[i].1;
      ghost var before := tabs;
      Assoc(before, [Tab(sheet, RawTable(df), None)], TrendTabs(sheet, summaries, types));
      tabs := tabs + [Tab(sheet, RawTable(df), None)];
      var trend := TrendFor(summaries, sheet);
      if trend.Some? {
        tabs := tabs + [TrendTab(sheet, trend.value, types)];
      }
      assert tabs == before + ([Tab(sheet, RawTable(df), None)] + TrendTabs(sheet, summaries, types));
      tabs := AppendCountTabs(tabs, sheet, df, types);
      Assoc(before, [Tab(sheet, RawTable(df), None)] + TrendTabs(sheet, summaries, types),
        CountTabs(sheet, df, CategoryColumns, types));
      WorkbookSnoc(dfs, summaries, types, i);
    }
    assert dfs[..|dfs|] == dfs;
  }

  /** The inner loop of the export: one frequency tab per charted column. */
  method AppendCountTabs(head: seq<Tab>, sheet: string, df: Table, types: Dict<string>) returns (tabs: seq<Tab>)
    ensures tabs == head + CountTabs(sheet, df, CategoryColumns, types)
  {
    tabs := head;
    assert CategoryColumns[..0] == [];
    for j := 0 to |CategoryColumns|
      invariant tabs == head + CountTabs(sheet, df, CategoryColumns[..j], types)
    {
      var column := CategoryColumns[j];
      var next := if Charted(df, column) then [CountTab(sheet, column, df, types)] else [];
      Assoc(head, CountTabs(sheet, df, CategoryColumns[..j], types), next);
      if column in df.columns && |df.rows| > 0 {
        tabs := tabs + [CountTab(sheet, column, df, types)];
      }
      CountTabsSnoc(sheet, df, CategoryColumns, types, j);
    }
    assert CategoryColumns[..|CategoryColumns|] == CategoryColumns;
  }

  lemma CountTabsSnoc(sheet: string, df: Table, columns: seq<string>, types: Dict<string>, j: nat)
    requires j < |columns|
    ensures CountTabs(sheet, df, columns[..j + 1], types) == CountTabs(sheet, df, columns[..j], types)
      + (if Charted(df, columns[j]) then [CountTab(sheet, columns[j], df, types)] else [])
  {
    assert columns[..j + 1][..j] == columns[..j];
  }

  lemma WorkbookSnoc(dfs: Dict<Table>, summaries: Dict<Summary>, types: Dict<string>, i: nat)
    requires i < |dfs|
    ensures Workbook(dfs[..i + 1], summaries, types) == Workbook(dfs[..i], summaries, types)
      + SheetTabs(dfs[i].0, dfs[i].1, summaries, types)
  {
    assert dfs[..i + 1][..i] == dfs[..i];
  }

  // ---------------------------------------------------------------------------
  // The chart plan

  /** The chart a tab carries, as the writer promises it: the stored table
      gets none; a trend tab gets a chart of the kind recorded under its name
      (a line chart by default) without data labels; a frequency tab gets a
      chart of the kind recorded under its name (a column chart by default),
      with percentage labels when it is a pie and value labels otherwise.
      Every series runs over the tab's data rows 1..n, categories in the
      first column and values in the second. */
  predicate WellPlanned(tab: Tab, types: Dict<string>)
  {
    match tab.data
    case RawTable(_) => tab.chart.None?
    case TrendData(_, _) =>
      && tab.chart.Some?
      && tab.chart.value.kind == (if tab.name in Keys(types) then Lookup(types, tab.name).value else DefaultTrendKind)
      && tab.chart.value.labels == NoLabels
      && SpansData(tab)
    case CountData(_, _) =>
      && tab.chart.Some?
      && tab.chart.value.kind == (if tab.name in Keys(types) then Lookup(types, tab.name).value else DefaultCountKind)
      && (tab.chart.value.labels == Percentage <==> tab.chart.value.kind == PieKind)
      && (tab.chart.value.labels == ValueLabels <==> tab.chart.value.kind != PieKind)
      && SpansData(tab)
  }

  predicate SpansData(tab: Tab)
    requires tab.chart.Some?
  {
    var n := DataRows(tab.data);
    && tab.chart.value.categories == CellRange(tab.name, 1, 0, n, 0)
    && tab.chart.value.values == CellRange(tab.name, 1, 1, n, 1)
  }

  lemma TrendTabPlanned(sheet: string, tr: seq<Entry<Month>>, types: Dict<string>)
    ensures WellPlanned(TrendTab(sheet, tr, types), types)
  {
  }

  lemma CountTabPlanned(sheet: string, column: string, df: Table, types: Dict<string>)
    ensures WellPlanned(CountTab(sheet, column, df, types), types)
  {
  }

  lemma {:induction false} CountTabsPlanned(sheet: string, df: Table, columns: seq<string>, types: Dict<string>)
    ensures forall tab :: tab in CountTabs(sheet, df, columns, types) ==> WellPlanned(tab, types)
    decreases |columns|
  {
    if columns != [] {
      var c := columns[|columns| - 1];
      CountTabsPlanned(sheet, df, columns[..|columns| - 1], types);
      CountTabPlanned(sheet, c, df, types);
    }
  }

  lemma SheetTabsPlanned(sheet: string, df: Table, summaries: Dict<Summary>, types: Dict<string>)
    ensures forall tab :: tab in SheetTabs(sheet, df, summaries, types) ==> WellPlanned(tab, types)
  {
    CountTabsPlanned(sheet, df, CategoryColumns, types);
    if TrendFor(summaries, sheet).Some? {
      TrendTabPlanned(sheet, TrendFor(summaries, sheet).value, types);
    }
  }

  /** Every tab of the workbook carries the chart the plan prescribes. */
  lemma {:induction false} WorkbookPlanned(dfs: Dict<Table>, summaries: Dict<Summary>, types: Dict<string>)
    ensures forall tab :: tab in Workbook(dfs, summaries, types) ==> WellPlanned(tab, types)
    decreases |dfs|
  {
    if dfs != [] {
      var last := dfs[|dfs| - 1];
      WorkbookPlanned(dfs[..|dfs| - 1], summaries, types);
      SheetTabsPlanned(last.0, last.1, summaries, types);
    }
  }

  // ---------------------------------------------------------------------------
  // The tabs of one sheet

  lemma {:induction false} CountTabsLayout(sheet: string, df: Table, columns: seq<string>, types: Dict<string>)
    ensures var tabs := CountTabs(sheet, df, columns, types);
      var cs := Keep(columns, c => Charted(df, c));
      && |tabs| == |cs|
      && forall i :: 0 <= i < |cs| ==> tabs[i] == CountTab(sheet, cs[i], df, types)
    decreases |columns|
  {
    if columns != [] {
      var n := |columns| - 1;
      var c := columns[n];
      var p := c => Charted(df, c);
      CountTabsLayout(sheet, df, columns[..n], types);
      assert Keep(columns, p) == Keep(columns[..n], p) + (if Charted(df, c) then [c] else []) by {
        assert columns == columns[..n] + [c];
        KeepAppend(columns[..n], [c], p);
        KeepSingle(c, p);
      }
    }
  }

  /** The tabs of one stored sheet, in order: the table itself under the
      sheet's name; then, exactly when its summary has a trend, the trend
      tab `{sheet}_Trend` holding the trend rows; then one frequency tab
      `{sheet}_{col}` for each of Jenis, Severity and Status that the table
      has, when it has rows, holding that column's value counts. */
  lemma SheetTabsLayout(sheet: string, df: Table, summaries: Dict<Summary>, types: Dict<string>)
    ensures var tabs := SheetTabs(sheet, df, summaries, types);
      var trend := TrendFor(summaries, sheet);
      var k := if trend.Some? then 2 else 1;
      var cs := Keep(CategoryColumns, c => Charted(df, c));
      && |tabs| == k + |cs|
      && tabs[0] == Tab(sheet, RawTable(df), None)
      && (trend.Some? ==> tabs[1].name == sheet + TrendSuffix && tabs[1].data == TrendData(TrendHeader, TrendRows(trend.value)))
      && (forall i :: 0 <= i < |cs| ==>
            && tabs[k + i].name == sheet + "_" + cs[i]
            && tabs[k + i].data == CountData([cs[i], CountHeader], CountsOf(df, cs[i])))
  {
    var front := [Tab(sheet, RawTable(df), None)] + TrendTabs(sheet, summaries, types);
    var counts := CountTabs(sheet, df, CategoryColumns, types);
    CountTabsLayout(sheet, df, CategoryColumns, types);
    assert SheetTabs(sheet, df, summaries, types) == front + counts;
  }

  predicate IsRawTab(tab: Tab) { tab.data.RawTable? }

  /** One stored-table tab per entry of the table store, in store order. */
  function RawTabsOf(dfs: Dict<Table>): (tabs: seq<Tab>)
    ensures |tabs| == |dfs|
    ensures forall i :: 0 <= i < |dfs| ==> tabs[i] == Tab(dfs[i].0, RawTable(dfs[i].1), None)
  {
    seq(|dfs|, i requires 0 <= i < |dfs| => Tab(dfs[i].0, RawTable(dfs[i].1), None))
  }

  lemma RawTabsOfAppend(a: Dict<Table>, b: Dict<Table>)
    ensures RawTabsOf(a + b) == RawTabsOf(a) + RawTabsOf(b)
  {
  }

  lemma SheetRawTabs(sheet: string, df: Table, summaries: Dict<Summary>, types: Dict<string>)
    ensures Keep(SheetTabs(sheet, df, summaries, types), IsRawTab) == [Tab(sheet, RawTable(df), None)]
  {
    var raw := [Tab(sheet, RawTable(df), None)];
    var trend := TrendTabs(sheet, summaries, types);
    var counts := CountTabs(sheet, df, CategoryColumns, types);
    CountTabsPlanned(sheet, df, CategoryColumns, types);
    CountTabsKinds(sheet, df, CategoryColumns, types);
    KeepNone(trend, IsRawTab);
    KeepNone(counts, IsRawTab);
    KeepAppend(raw, trend, IsRawTab);
    KeepAppend(raw + trend, counts, IsRawTab);
    KeepSingle(raw[0], IsRawTab);
  }

  lemma {:induction false} CountTabsKinds(sheet: string, df: Table, columns: seq<string>, types: Dict<string>)
    ensures forall tab :: tab in CountTabs(sheet, df, columns, types) ==> tab.data.CountData?
    decreases |columns|
  {
    if columns != [] {
      CountTabsKinds(sheet, df, columns[..|columns| - 1], types);
    }
  }

  /** The workbook holds one tab per stored table, named after its sheet, in
      the order the sheets were first stored. */
  lemma {:induction false} WorkbookRawTabs(dfs: Dict<Table>, summaries: Dict<Summary>, types: Dict<string>)
    ensures Keep(Workbook(dfs, summaries, types), IsRawTab) == RawTabsOf(dfs)
    decreases |dfs|
  {
    if dfs != [] {
      var n := |dfs| - 1;
      var last := dfs[n];
      var init := dfs[..n];
      assert dfs == init + [last];
      assert Keep(Workbook(init, summaries, types), IsRawTab) == RawTabsOf(init) by {
        WorkbookRawTabs(init, summaries, types);
      }
      assert Keep(SheetTabs(last.0, last.1, summaries, types), IsRawTab) == RawTabsOf([last]) by {
        SheetRawTabs(last.0, last.1, summaries, types);
      }
      KeepAppend(Workbook(init, summaries, types), SheetTabs(last.0, last.1, summaries, types), IsRawTab);
      RawTabsOfAppend(init, [last]);
    }
  }

  /** For a sheet the dashboard analysed (its summary is the summary of its
      filtered table), the trend tab is written exactly when the table has a
      date column, and every frequency tab accounts for every row of the
      table with at least one entry. */
  lemma AnalysedSheetTabs(sheet: string, df: Table, summaries: Dict<Summary>, types: Dict<string>)
    requires Screened(df)
    requires Lookup(summaries, sheet) == Some(Summarise(df))
    ensures TrendFor(summaries, sheet).Some? <==> DateColumn in df.columns
    ensures forall tab :: tab in CountTabs(sheet, df, CategoryColumns, types) ==>
      tab.data.CountData? && Total(tab.data.counts) == |df.rows| && |tab.data.counts| > 0
  {
    assert TrendFor(summaries, sheet).Some? <==> DateColumn in df.columns by {
      SummarySpec(df);
    }
    var cs := Keep(CategoryColumns, c => Charted(df, c));
    CountTabsLayout(sheet, df, CategoryColumns, types);
    forall tab | tab in CountTabs(sheet, df, CategoryColumns, types)
      ensures tab.data.CountData? && Total(tab.data.counts) == |df.rows| && |tab.data.counts| > 0
    {
      var tabs := CountTabs(sheet, df, CategoryColumns, types);
      var i :| 0 <= i < |tabs| && tabs[i] == tab;
      assert cs[i] in cs;
      CountsCoverRows(df, cs[i]);
    }
  }
}
