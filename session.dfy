/** The dashboard's session: the loaded workbook and the four stores the
    sheet pages write into and the download page reads from. A sheet page is
    one call of `Analyse`, with the widget choices (date range, selected
    options, chart types) as parameters. */
module Session {
  import opened Tables
  import opened SeriesOps
  import opened Dicts
  import opened Risk
  import opened Incidents
  import PdfReport
  import ExcelReport

  const RiskMatrixSuffix := "_RiskMatrix"

  /** The chart kinds the trend and frequency pickers offer. */
  const TrendKinds: seq<string> := ["line", "column"]
  const CountKinds: seq<string> := ["column", "pie"]
  const ChartKinds: seq<string> := ["line", "column", "pie"]

  /** Where the rendered chart under a key is saved. */
  function ChartPath(key: string): (path: string)
    ensures key <= path && |path| == |key| + 4
  {
    key + ".png"
  }

  /** What a sheet page shows. */
  datatype Outcome =
    | NoSuchSheet
    | EmptySheet
    | RiskAnalysed(rated: Table, maxRating: Option<int>, matrix: RiskMatrix)
    | IncidentsAnalysed(filtered: Table, summary: Summary)

  /** The analysis of one sheet of the loaded workbook: nothing when no file is
      loaded or the workbook has no such sheet, a warning for an empty sheet,
      the HIRADC figures for a sheet with both factor columns, and otherwise
      the filtered table and its summary. */
  function Analysis(book: Option<Dict<Table>>, sheet: string, start: Date, end: Date,
                    selections: map<string, seq<Value>>): (o: Outcome)
    ensures o.NoSuchSheet? <==> book.None? || sheet !in Keys(book.value)
    ensures o.EmptySheet? <==> book.Some? && sheet in Keys(book.value) && IsEmpty(Lookup(book.value, sheet).value)
    ensures o.RiskAnalysed? <==> (book.Some? && sheet in Keys(book.value) && !IsEmpty(Lookup(book.value, sheet).value)
      && LikelihoodColumn in Lookup(book.value, sheet).value.columns
      && SeverityColumn in Lookup(book.value, sheet).value.columns)
  {
    if book.None? || sheet !in Keys(book.value) then NoSuchSheet
    else
      var t := Lookup(book.value, sheet).value;
      if IsEmpty(t) then EmptySheet
      else if Classify(t.columns) == RiskAssessment then
        var rated := Rated(t);
        RiskAnalysed(rated, MaxRating(rated), Crosstab(rated))
      else
        var f := Filtered(t, start, end, selections);
        FilteredIsScreened(t, start, end, selections);
        IncidentsAnalysed(f, Summarise(f))
  }

  /** The HIRADC figures are those of the rated sheet; the trend branch keeps
      exactly the rows that pass the date and category filters, in order, and
      summarises the screened result. */
  lemma AnalysisSpec(book: Option<Dict<Table>>, sheet: string, start: Date, end: Date,
                     selections: map<string, seq<Value>>)
    ensures var o := Analysis(book, sheet, start, end, selections);
      && (o.RiskAnalysed? ==> var t := Lookup(book.value, sheet).value;
        && o.rated == Rated(t) && o.maxRating == MaxRating(o.rated) && o.matrix == Crosstab(o.rated))
      && (o.IncidentsAnalysed? ==> var t := Lookup(book.value, sheet).value;
        && o.filtered.columns == t.columns
        && o.filtered.rows == Keep(Prepared(t).rows, r => Accepts(r, t.columns, start, end, selections))
        && Screened(o.filtered) && Dated(o.filtered)
        && o.summary == Summarise(o.filtered))
  {
    if book.Some? && sheet in Keys(book.value) {
      var t := Lookup(book.value, sheet).value;
      FilterSpec(t, start, end, selections);
      FilteredIsScreened(t, start, end, selections);
    }
  }

  // ---------------------------------------------------------------------------
  // Chart bookkeeping of the trend branch

  /** The chart-type records written for the first columns of `cats`, after
      the trend record: `{sheet}_Trend` when the table has a date column, then
      `{sheet}_{col}` for each listed column the table has. */
  function PlanUpTo(sheet: string, columns: seq<string>, trendKind: string,
                    countKinds: map<string, string>, cats: seq<string>): Dict<string>
    requires forall c :: c in cats ==> c in countKinds
    decreases |cats|
  {
    if cats == [] then
      TrendEntry(sheet, columns, trendKind)
    else
      var n := |cats| - 1;
      assert forall c :: c in cats[..n] ==> c in cats;
      PlanUpTo(sheet, columns, trendKind, countKinds, cats[..n]) + CountEntry(sheet, columns, countKinds, cats[n])
  }

  /** The trend chart's record, present when the table has a date column. */
  function TrendEntry(sheet: string, columns: seq<string>, trendKind: string): Dict<string>
  {
    if DateColumn in columns then [(sheet + ExcelReport.TrendSuffix, trendKind)] else []
  }

  /** The frequency chart's record for column `c`, present when the table has it. */
  function CountEntry(sheet: string, columns: seq<string>, countKinds: map<string, string>, c: string): Dict<string>
    requires c in countKinds
  {
    if c in columns then [(sheet + "_" + c, countKinds[c])] else []
  }

  /** The chart-type records a trend-branch sheet writes, in write order. */
  function ChartPlan(sheet: string, columns: seq<string>, trendKind: string,
                     countKinds: map<string, string>): Dict<string>
    requires forall c :: c in CategoryColumns ==> c in countKinds
  {
    PlanUpTo(sheet, columns, trendKind, countKinds, CategoryColumns)
  }

  /** The chart-path records that go with chart-type records. */
  function ChartFiles(plan: Dict<string>): (files: Dict<string>)
    ensures |files| == |plan|
    ensures forall i :: 0 <= i < |plan| ==> files[i] == (plan[i].0, ChartPath(plan[i].0))
  {
    seq(|plan|, i requires 0 <= i < |plan| => (plan[i].0, ChartPath(plan[i].0)))
  }

  lemma ChartFilesKeys(plan: Dict<string>)
    ensures Keys(ChartFiles(plan)) == Keys(plan)
  {
  }

  lemma PlanSnoc(sheet: string, columns: seq<string>, trendKind: string,
                 countKinds: map<string, string>, j: nat)
    requires forall c :: c in CategoryColumns ==> c in countKinds
    requires j < |CategoryColumns|
    ensures PlanUpTo(sheet, columns, trendKind, countKinds, CategoryColumns[..j + 1])
      == PlanUpTo(sheet, columns, trendKind, countKinds, CategoryColumns[..j])
        + CountEntry(sheet, columns, countKinds, CategoryColumns[j])
  {
    assert CategoryColumns[..j + 1][..j] == CategoryColumns[..j];
  }

  lemma PutAllSnoc<V>(d: Dict<V>, ps: seq<(string, V)>, p: (string, V))
    ensures PutAll(d, ps + [p]) == Put(PutAll(d, ps), p.0, p.1)
  {
    assert (ps + [p])[..|ps|] == ps;
  }

  lemma ChartFilesSnoc(plan: Dict<string>, p: (string, string))
    ensures ChartFiles(plan + [p]) == ChartFiles(plan) + [(p.0, ChartPath(p.0))]
  {
  }

  /** Two keys made from the same sheet name with different endings differ. */
  lemma SuffixesDiffer(sheet: string, a: string, b: string)
    requires a != b
    ensures sheet + a != sheet + b
  {
    assert (sheet + a)[|sheet|..] == a && (sheet + b)[|sheet|..] == b;
  }

  /** The plan of a sheet is the trend record followed by the records of the
      three frequency columns, in that order. */
  lemma ChartPlanUnfold(sheet: string, columns: seq<string>, trendKind: string,
                        countKinds: map<string, string>)
    requires forall c :: c in CategoryColumns ==> c in countKinds
    ensures ChartPlan(sheet, columns, trendKind, countKinds)
      == TrendEntry(sheet, columns, trendKind)
        + CountEntry(sheet, columns, countKinds, KindColumn)
        + CountEntry(sheet, columns, countKinds, SeverityColumn)
        + CountEntry(sheet, columns, countKinds, StatusColumn)
  {
    PlanSnoc(sheet, columns, trendKind, countKinds, 0);
    PlanSnoc(sheet, columns, trendKind, countKinds, 1);
    PlanSnoc(sheet, columns, trendKind, countKinds, 2);
    assert CategoryColumns[..0] == [];
    assert CategoryColumns[..3] == CategoryColumns;
  }

  /** The four chart keys a sheet can have are pairwise different. */
  lemma ChartKeysDiffer(sheet: string)
    ensures var tk, ka, kb, kc := sheet + ExcelReport.TrendSuffix, sheet + "_" + KindColumn,
                                  sheet + "_" + SeverityColumn, sheet + "_" + StatusColumn;
      tk != ka && tk != kb && tk != kc && ka != kb && ka != kc && kb != kc
  {
    assert sheet + ExcelReport.TrendSuffix == sheet + "_Trend";
    SuffixesDiffer(sheet, "_Trend", "_Jenis");
    SuffixesDiffer(sheet, "_Trend", "_Severity");
    SuffixesDiffer(sheet, "_Trend", "_Status");
    SuffixesDiffer(sheet, "_Jenis", "_Severity");
    SuffixesDiffer(sheet, "_Jenis", "_Status");
    SuffixesDiffer(sheet, "_Severity", "_Status");
  }

  /** The trend chart is planned exactly when the table has a date column. */
  lemma ChartPlanTrend(sheet: string, columns: seq<string>, trendKind: string,
                       countKinds: map<string, string>)
    requires forall c :: c in CategoryColumns ==> c in countKinds
    ensures (sheet + ExcelReport.TrendSuffix, trendKind) in ChartPlan(sheet, columns, trendKind, countKinds)
      <==> DateColumn in columns
  {
    ChartPlanUnfold(sheet, columns, trendKind, countKinds);
    ChartKeysDiffer(sheet);
  }

  /** A frequency chart, with the kind picked for it, is planned exactly when
      the table has its column. */
  lemma ChartPlanCount(sheet: string, columns: seq<string>, trendKind: string,
                       countKinds: map<string, string>, c: string)
    requires forall c :: c in CategoryColumns ==> c in countKinds
    requires c in CategoryColumns
    ensures (sheet + "_" + c, countKinds[c]) in ChartPlan(sheet, columns, trendKind, countKinds)
      <==> c in columns
  {
    ChartPlanUnfold(sheet, columns, trendKind, countKinds);
    ChartKeysDiffer(sheet);
  }

  /** Every planned key starts with the sheet name. */
  lemma ChartPlanPrefix(sheet: string, columns: seq<string>, trendKind: string,
                        countKinds: map<string, string>)
    requires forall c :: c in CategoryColumns ==> c in countKinds
    ensures forall p :: p in ChartPlan(sheet, columns, trendKind, countKinds) ==> sheet <= p.0
  {
    ChartPlanUnfold(sheet, columns, trendKind, countKinds);
  }

  /** Each planned chart is the trend chart of a dated table or the frequency
      chart of a column the table has. */
  lemma ChartPlanOnly(sheet: string, columns: seq<string>, trendKind: string,
                      countKinds: map<string, string>)
    requires forall c :: c in CategoryColumns ==> c in countKinds
    ensures forall p :: p in ChartPlan(sheet, columns, trendKind, countKinds) ==>
      || (p == (sheet + ExcelReport.TrendSuffix, trendKind) && DateColumn in columns)
      || (p == (sheet + "_" + KindColumn, countKinds[KindColumn]) && KindColumn in columns)
      || (p == (sheet + "_" + SeverityColumn, countKinds[SeverityColumn]) && SeverityColumn in columns)
      || (p == (sheet + "_" + StatusColumn, countKinds[StatusColumn]) && StatusColumn in columns)
  {
    ChartPlanUnfold(sheet, columns, trendKind, countKinds);
  }

  /** No chart key is planned twice. */
  lemma ChartPlanNoDup(sheet: string, columns: seq<string>, trendKind: string,
                       countKinds: map<string, string>)
    requires forall c :: c in CategoryColumns ==> c in countKinds
    ensures NoDup(Keys(ChartPlan(sheet, columns, trendKind, countKinds)))
  {
    var trend := TrendEntry(sheet, columns, trendKind);
    var a := CountEntry(sheet, columns, countKinds, KindColumn);
    var b := CountEntry(sheet, columns, countKinds, SeverityColumn);
    var c := CountEntry(sheet, columns, countKinds, StatusColumn);
    var k0, k1, k2, k3 := Keys(trend), Keys(a), Keys(b), Keys(c);
    assert Keys(ChartPlan(sheet, columns, trendKind, countKinds)) == k0 + k1 + k2 + k3 by {
      ChartPlanUnfold(sheet, columns, trendKind, countKinds);
      KeysAppend(trend, a);
      KeysAppend(trend + a, b);
      KeysAppend(trend + a + b, c);
    }
    assert NoDup(k0 + k1 + k2 + k3) by {
      ChartKeysDiffer(sheet);
      DistinctPieces(k0, k1, k2, k3, sheet + ExcelReport.TrendSuffix, sheet + "_" + KindColumn,
                     sheet + "_" + SeverityColumn, sheet + "_" + StatusColumn);
    }
  }

  /** Four pieces, each empty or one of four different keys, concatenate
      without a repeated key. */
  lemma DistinctPieces(k0: seq<string>, k1: seq<string>, k2: seq<string>, k3: seq<string>,
                       x0: string, x1: string, x2: string, x3: string)
    requires (k0 == [] || k0 == [x0]) && (k1 == [] || k1 == [x1])
    requires (k2 == [] || k2 == [x2]) && (k3 == [] || k3 == [x3])
    requires x0 != x1 && x0 != x2 && x0 != x3 && x1 != x2 && x1 != x3 && x2 != x3
    ensures NoDup(k0 + k1 + k2 + k3)
  {
    NoDupAppend(k0, k1);
    NoDupAppend(k0 + k1, k2);
    NoDupAppend(k0 + k1 + k2, k3);
  }

  /** The chart keys of a sheet: the trend key exactly when the table has a
      date column, one key per frequency column the table has with the kind
      picked for it, nothing else; every key starts with the sheet name (so
      the PDF report shows these charts under that sheet), and no key twice. */
  lemma ChartPlanSpec(sheet: string, columns: seq<string>, trendKind: string,
                      countKinds: map<string, string>)
    requires forall c :: c in CategoryColumns ==> c in countKinds
    ensures var plan := ChartPlan(sheet, columns, trendKind, countKinds);
      && ((sheet + ExcelReport.TrendSuffix, trendKind) in plan <==> DateColumn in columns)
      && (forall c :: c in CategoryColumns ==> ((sheet + "_" + c, countKinds[c]) in plan <==> c in columns))
      && (forall p :: p in plan ==>
            || (p == (sheet + ExcelReport.TrendSuffix, trendKind) && DateColumn in columns)
            || (exists c :: c in CategoryColumns && c in columns && p == (sheet + "_" + c, countKinds[c])))
      && (forall p :: p in plan ==> sheet <= p.0)
      && NoDup(Keys(plan))
  {
    ChartPlanTrend(sheet, columns, trendKind, countKinds);
    forall c | c in CategoryColumns
      ensures (sheet + "_" + c, countKinds[c]) in ChartPlan(sheet, columns, trendKind, countKinds) <==> c in columns
    {
      ChartPlanCount(sheet, columns, trendKind, countKinds, c);
    }
    assert forall p :: p in ChartPlan(sheet, columns, trendKind, countKinds) ==>
            || (p == (sheet + ExcelReport.TrendSuffix, trendKind) && DateColumn in columns)
            || (exists c :: c in CategoryColumns && c in columns && p == (sheet + "_" + c, countKinds[c])) by {
      ChartPlanOnly(sheet, columns, trendKind, countKinds);
      assert KindColumn in CategoryColumns && SeverityColumn in CategoryColumns && StatusColumn in CategoryColumns;
    }
    ChartPlanPrefix(sheet, columns, trendKind, countKinds);
    ChartPlanNoDup(sheet, columns, trendKind, countKinds);
  }

  /** Fill in the chart-type and chart-path stores for a trend-branch sheet:
      the trend chart, then one frequency chart per column present. */
  method RecordCharts(sheet: string, columns: seq<string>, trendKind: string,
                      countKinds: map<string, string>, types0: Dict<string>, paths0: Dict<string>)
    returns (types: Dict<string>, paths: Dict<string>)
    requires forall c :: c in CategoryColumns ==> c in countKinds
    ensures types == PutAll(types0, ChartPlan(sheet, columns, trendKind, countKinds))
    ensures paths == PutAll(paths0, ChartFiles(ChartPlan(sheet, columns, trendKind, countKinds)))
  {
    types, paths := types0, paths0;
    if DateColumn in columns {
      var key := sheet + ExcelReport.TrendSuffix;
      types := Put(types, key, trendKind);
      paths := Put(paths, key, ChartPath(key));
      PutAllSnoc(types0, [], (key, trendKind));
      PutAllSnoc(paths0, [], (key, ChartPath(key)));
    }
    assert CategoryColumns[..0] == [];
    for j := 0 to |CategoryColumns|
      invariant types == PutAll(types0, PlanUpTo(sheet, columns, trendKind, countKinds, CategoryColumns[..j]))
      invariant paths == PutAll(paths0, ChartFiles(PlanUpTo(sheet, columns, trendKind, countKinds, CategoryColumns[..j])))
    {
      var column := CategoryColumns[j];
      ghost var before := PlanUpTo(sheet, columns, trendKind, countKinds, CategoryColumns[..j]);
      PlanSnoc(sheet, columns, trendKind, countKinds, j);
      if column in columns {
        var key := sheet + "_" + column;
        types := Put(types, key, countKinds[column]);
        paths := Put(paths, key, ChartPath(key));
        PutAllSnoc(types0, before, (key, countKinds[column]));
        ChartFilesSnoc(before, (key, countKinds[column]));
        PutAllSnoc(paths0, ChartFiles(before), (key, ChartPath(key)));
      } else {
        assert before + [] == before;
      }
    }
    assert CategoryColumns[..|CategoryColumns|] == CategoryColumns;
  }

  // ---------------------------------------------------------------------------
  // Store invariants

  /** A chart-path record names the file its chart was saved to. */
  predicate PathFor(entry: (string, string)) { entry.1 == ChartPath(entry.0) }

  /** A chart-type record holds one of the offered kinds. */
  predicate KindOffered(entry: (string, string)) { entry.1 in ChartKinds }

  predicate PathsValid(charts: Dict<string>)
  {
    forall k :: k in Keys(charts) ==> PathFor((k, Lookup(charts, k).value))
  }

  predicate KindsValid(types: Dict<string>)
  {
    forall k :: k in Keys(types) ==> KindOffered((k, Lookup(types, k).value))
  }

  /** The summary store and the table store cover the same sheets, in the same
      order, and each stored summary is the summary of the stored table, a
      table the filters have screened. */
  predicate Consistent(summaries: Dict<Summary>, tables: Dict<Table>)
  {
    && Keys(summaries) == Keys(tables)
    && forall k :: k in Keys(tables) ==>
      var t := Lookup(tables, k).value;
      Screened(t) && Dated(t) && Lookup(summaries, k) == Some(Summarise(t))
  }

  /** Storing a screened table together with its summary keeps the stores consistent. */
  lemma ConsistentPut(summaries: Dict<Summary>, tables: Dict<Table>, sheet: string, t: Table)
    requires Consistent(summaries, tables)
    requires Screened(t) && Dated(t)
    ensures Consistent(Put(summaries, sheet, Summarise(t)), Put(tables, sheet, t))
  {
    var s' := Put(summaries, sheet, Summarise(t));
    var t' := Put(tables, sheet, t);
    forall k | k in Keys(t')
      ensures var u := Lookup(t', k).value; Screened(u) && Dated(u) && Lookup(s', k) == Some(Summarise(u))
    {
      if k != sheet {
        assert k in Keys(tables);
      }
    }
  }

  /** Recording the charts of a trend-branch sheet keeps every path record a
      file name for its key and every type record an offered kind. */
  lemma RecordsValid(charts: Dict<string>, types: Dict<string>, sheet: string, columns: seq<string>,
                     trendKind: string, countKinds: map<string, string>)
    requires PathsValid(charts) && KindsValid(types)
    requires trendKind in TrendKinds
    requires forall c :: c in CategoryColumns ==> c in countKinds && countKinds[c] in CountKinds
    ensures PathsValid(PutAll(charts, ChartFiles(ChartPlan(sheet, columns, trendKind, countKinds))))
    ensures KindsValid(PutAll(types, ChartPlan(sheet, columns, trendKind, countKinds)))
  {
    var plan := ChartPlan(sheet, columns, trendKind, countKinds);
    PutAllKeeps(charts, ChartFiles(plan), PathFor);
    assert forall i :: 0 <= i < |plan| ==> KindOffered(plan[i]) by {
      PlanKinds(sheet, columns, trendKind, countKinds, CategoryColumns);
    }
    PutAllKeeps(types, plan, KindOffered);
  }

  lemma {:induction false} PlanKinds(sheet: string, columns: seq<string>, trendKind: string,
                                     countKinds: map<string, string>, cats: seq<string>)
    requires trendKind in TrendKinds
    requires forall c :: c in cats ==> c in countKinds && countKinds[c] in CountKinds
    ensures forall p :: p in PlanUpTo(sheet, columns, trendKind, countKinds, cats) ==> KindOffered(p)
    decreases |cats|
  {
    if cats != [] {
      var n := |cats| - 1;
      assert forall c :: c in cats[..n] ==> c in cats;
      PlanKinds(sheet, columns, trendKind, countKinds, cats[..n]);
    }
  }

  /** Recording the HIRADC matrix chart keeps every path record a file name for its key. */
  lemma MatrixPathValid(charts: Dict<string>, sheet: string)
    requires PathsValid(charts)
    ensures PathsValid(Put(charts, sheet + RiskMatrixSuffix, ChartPath(sheet + RiskMatrixSuffix)))
  {
    var key := sheet + RiskMatrixSuffix;
    PutAllSnoc(charts, [], (key, ChartPath(key)));
    PutAllKeeps(charts, [(key, ChartPath(key))], PathFor);
  }

  // ---------------------------------------------------------------------------
  // Reports of a consistent store

  /** The PDF report has one section per stored table, and the Excel workbook
      one data tab per stored table, for the same sheets in the same order. */
  lemma ReportsAgree(summaries: Dict<Summary>, tables: Dict<Table>, charts: Dict<string>, types: Dict<string>)
    requires Keys(summaries) == Keys(tables)
    ensures var headings := Keep(PdfReport.Story(summaries, charts), PdfReport.IsHeading);
      var raws := Keep(ExcelReport.Workbook(tables, summaries, types), ExcelReport.IsRawTab);
      && |headings| == |raws| == |tables|
      && forall i :: 0 <= i < |tables| ==>
        headings[i] == PdfReport.Heading(tables[i].0)
        && raws[i] == ExcelReport.Tab(tables[i].0, ExcelReport.RawTable(tables[i].1), None)
  {
    PdfReport.StoryContents(summaries, charts);
    ExcelReport.WorkbookRawTabs(tables, summaries, types);
  }

  /** Every stored sheet gets its trend tab exactly when its table has a date
      column, and frequency tabs that account for every row of the table. */
  lemma StoredSheetTabs(summaries: Dict<Summary>, tables: Dict<Table>, types: Dict<string>, sheet: string)
    requires Consistent(summaries, tables)
    requires sheet in Keys(tables)
    ensures var t := Lookup(tables, sheet).value;
      && (ExcelReport.TrendFor(summaries, sheet).Some? <==> DateColumn in t.columns)
      && forall tab :: tab in ExcelReport.CountTabs(sheet, t, CategoryColumns, types) ==>
        tab.data.CountData? && Total(tab.data.counts) == |t.rows| && |tab.data.counts| > 0
  {
    var t := Lookup(tables, sheet).value;
    ExcelReport.AnalysedSheetTabs(sheet, t, summaries, types);
  }

  /** Analysing a trend-branch sheet a second time with the same choices
      leaves the four stores as the first analysis left them: its entries are
      overwritten, never accumulated. */
  lemma ReanalysisStable(summaries: Dict<Summary>, tables: Dict<Table>, charts: Dict<string>, types: Dict<string>,
                         sheet: string, f: Table, plan: Dict<string>)
    requires Screened(f)
    requires NoDup(Keys(charts)) && NoDup(Keys(types))
    ensures var s := Put(summaries, sheet, Summarise(f)); Put(s, sheet, Summarise(f)) == s
    ensures var t := Put(tables, sheet, f); Put(t, sheet, f) == t
    ensures var k := PutAll(types, plan); PutAll(k, plan) == k
    ensures var c := PutAll(charts, ChartFiles(plan)); PutAll(c, ChartFiles(plan)) == c
  {
    PutPut(summaries, sheet, Summarise(f), Summarise(f));
    PutPut(tables, sheet, f, f);
    PutAllTwice(types, plan);
    PutAllTwice(charts, ChartFiles(plan));
  }

  // ---------------------------------------------------------------------------
  // The session

  /** A table-store entry is a screened table whose summary is stored under its name. */
  predicate StoredEntry(summaries: Dict<Summary>, entry: (string, Table))
  {
    Screened(entry.1) && Dated(entry.1) && Lookup(summaries, entry.0) == Some(Summarise(entry.1))
  }

  function Stored(summaries: Dict<Summary>): ((string, Table)) -> bool
  {
    entry => StoredEntry(summaries, entry)
  }

  /** What holds of the four stores between pages, entry by entry: they are
      empty before a file is loaded, no store holds a key twice, the summary
      and table stores are consistent, and the chart stores hold file names
      and offered kinds. */
  predicate StoresValid(loaded: bool, summaries: Dict<Summary>, tables: Dict<Table>,
                        charts: Dict<string>, types: Dict<string>)
  {
    && (!loaded ==> summaries == [] && tables == [] && charts == [] && types == [])
    && UniqueKeys(summaries) && UniqueKeys(tables) && UniqueKeys(charts) && UniqueKeys(types)
    && Keys(summaries) == Keys(tables)
    && Every(tables, Stored(summaries))
    && Every(charts, PathFor)
    && Every(types, KindOffered)
  }

  /** The entry-by-entry invariant says, key by key, that the keys are
      distinct, the summary and table stores are consistent, and the chart
      stores hold file names and offered kinds. */
  lemma StoresValidMeans(loaded: bool, summaries: Dict<Summary>, tables: Dict<Table>,
                         charts: Dict<string>, types: Dict<string>)
    ensures StoresValid(loaded, summaries, tables, charts, types) <==>
      && (!loaded ==> summaries == [] && tables == [] && charts == [] && types == [])
      && NoDup(Keys(summaries)) && NoDup(Keys(tables)) && NoDup(Keys(charts)) && NoDup(Keys(types))
      && Consistent(summaries, tables)
      && PathsValid(charts)
      && KindsValid(types)
  {
    UniqueKeysIff(summaries);
    UniqueKeysIff(tables);
    UniqueKeysIff(charts);
    UniqueKeysIff(types);
    if NoDup(Keys(tables)) {
      EveryLookup(tables, Stored(summaries));
    }
    if NoDup(Keys(charts)) {
      EveryLookup(charts, PathFor);
    }
    if NoDup(Keys(types)) {
      EveryLookup(types, KindOffered);
    }
  }

  /** The HIRADC branch keeps the stores valid. */
  lemma MatrixStepValid(summaries: Dict<Summary>, tables: Dict<Table>, charts: Dict<string>,
                        types: Dict<string>, sheet: string)
    requires StoresValid(true, summaries, tables, charts, types)
    ensures StoresValid(true, summaries, tables,
      Put(charts, sheet + RiskMatrixSuffix, ChartPath(sheet + RiskMatrixSuffix)), types)
  {
    var charts' := Put(charts, sheet + RiskMatrixSuffix, ChartPath(sheet + RiskMatrixSuffix));
    StoresValidMeans(true, summaries, tables, charts, types);
    MatrixPathValid(charts, sheet);
    PutNoDup(charts, sheet + RiskMatrixSuffix, ChartPath(sheet + RiskMatrixSuffix));
    StoresValidMeans(true, summaries, tables, charts', types);
  }

  /** The trend branch keeps the stores valid. */
  lemma IncidentStepValid(summaries: Dict<Summary>, tables: Dict<Table>, charts: Dict<string>,
                          types: Dict<string>, sheet: string, f: Table, trendKind: string,
                          countKinds: map<string, string>)
    requires StoresValid(true, summaries, tables, charts, types)
    requires Screened(f) && Dated(f)
    requires trendKind in TrendKinds
    requires forall c :: c in CategoryColumns ==> c in countKinds && countKinds[c] in CountKinds
    ensures var plan := ChartPlan(sheet, f.columns, trendKind, countKinds);
      StoresValid(true, Put(summaries, sheet, Summarise(f)), Put(tables, sheet, f),
        PutAll(charts, ChartFiles(plan)), PutAll(types, plan))
  {
    var plan := ChartPlan(sheet, f.columns, trendKind, countKinds);
    StoresValidMeans(true, summaries, tables, charts, types);
    RecordsValid(charts, types, sheet, f.columns, trendKind, countKinds);
    PutAllNoDup(types, plan);
    PutAllNoDup(charts, ChartFiles(plan));
    ConsistentPut(summaries, tables, sheet, f);
    PutNoDup(summaries, sheet, Summarise(f));
    PutNoDup(tables, sheet, f);
    StoresValidMeans(true, Put(summaries, sheet, Summarise(f)), Put(tables, sheet, f),
      PutAll(charts, ChartFiles(plan)), PutAll(types, plan));
  }

  /** The four stores the dashboard keeps in its session state: the summary
      of each analysed sheet, its filtered table, the chart image of each
      chart key, and the chart type picked for each chart key. */
  datatype Stores = Stores(summaries: Dict<Summary>, tables: Dict<Table>,
                           charts: Dict<string>, chartTypes: Dict<string>)

  const NoStores := Stores([], [], [], [])

  class Store {
    var workbook: Option<Dict<Table>>
    var stores: Stores

    predicate Valid()
      reads this
    {
      StoresValid(workbook.Some?, stores.summaries, stores.tables, stores.charts, stores.chartTypes)
    }

    /** A fresh session: no file loaded, no store yet. */
    constructor()
      ensures workbook.None? && stores == NoStores
      ensures Valid()
    {
      workbook := None;
      stores := NoStores;
    }

    /** Loading a file replaces the workbook and resets all four stores. */
    method Load(book: Dict<Table>)
      modifies this
      ensures workbook == Some(book) && stores == NoStores
      ensures Valid()
    {
      workbook := Some(book);
      stores := NoStores;
    }

    /** The page of one sheet, with the widget choices as parameters. */
    method Analyse(sheet: string, start: Date, end: Date, selections: map<string, seq<Value>>,
                   trendKind: string, countKinds: map<string, string>) returns (outcome: Outcome)
      requires Valid()
      requires trendKind in TrendKinds
      requires forall c :: c in CategoryColumns ==> c in countKinds && countKinds[c] in CountKinds
      modifies this
      ensures outcome == Analysis(old(workbook), sheet, start, end, selections)
      ensures workbook == old(workbook)
      ensures (outcome.NoSuchSheet? || outcome.EmptySheet?) ==> stores == old(stores)
      ensures outcome.RiskAnalysed? ==>
        stores == old(stores).(charts := Put(old(stores).charts, sheet + RiskMatrixSuffix, ChartPath(sheet + RiskMatrixSuffix)))
      ensures outcome.IncidentsAnalysed? ==>
        var plan := ChartPlan(sheet, outcome.filtered.columns, trendKind, countKinds);
        stores == Stores(Put(old(stores).summaries, sheet, outcome.summary),
                         Put(old(stores).tables, sheet, outcome.filtered),
                         PutAll(old(stores).charts, ChartFiles(plan)),
                         PutAll(old(stores).chartTypes, plan))
      ensures Valid()
    {
      if workbook.None? || sheet !in Keys(workbook.value) {
        outcome := NoSuchSheet;
        return;
      }
      var t := Lookup(workbook.value, sheet).value;
      if IsEmpty(t) {
        outcome := EmptySheet;
        return;
      }
      if Classify(t.columns) == RiskAssessment {
        outcome := AnalyseRisk(sheet, t);
      } else {
        outcome := AnalyseIncidents(sheet, t, start, end, selections, trendKind, countKinds);
      }
    }

    /** The HIRADC branch: rate the rows, take the highest rating, cross-tabulate
        severity against likelihood and record the matrix chart. */
    method AnalyseRisk(sheet: string, t: Table) returns (outcome: Outcome)
      requires Valid() && workbook.Some?
      modifies this
      ensures outcome == (var rated := Rated(t); RiskAnalysed(rated, MaxRating(rated), Crosstab(rated)))
      ensures workbook == old(workbook)
      ensures stores == old(stores).(charts := Put(old(stores).charts, sheet + RiskMatrixSuffix, ChartPath(sheet + RiskMatrixSuffix)))
      ensures Valid()
    {
      var Stores(summaries, tables, charts, chartTypes) := stores;
      var rated := Rated(t);
      outcome := RiskAnalysed(rated, MaxRating(rated), Crosstab(rated));
      var key := sheet + RiskMatrixSuffix;
      MatrixStepValid(summaries, tables, charts, chartTypes, sheet);
      stores := stores.(charts := Put(charts, key, ChartPath(key)));
    }

    /** The incident branch: filter the table, summarise it, store both and
        record the trend and frequency charts. */
    method AnalyseIncidents(sheet: string, t: Table, start: Date, end: Date, selections: map<string, seq<Value>>,
                            trendKind: string, countKinds: map<string, string>) returns (outcome: Outcome)
      requires Valid() && workbook.Some?
      requires trendKind in TrendKinds
      requires forall c :: c in CategoryColumns ==> c in countKinds && countKinds[c] in CountKinds
      modifies this
      ensures outcome == (var f := Filtered(t, start, end, selections);
                          FilteredIsScreened(t, start, end, selections); IncidentsAnalysed(f, Summarise(f)))
      ensures workbook == old(workbook)
      ensures var plan := ChartPlan(sheet, outcome.filtered.columns, trendKind, countKinds);
        stores == Stores(Put(old(stores).summaries, sheet, outcome.summary),
                         Put(old(stores).tables, sheet, outcome.filtered),
                         PutAll(old(stores).charts, ChartFiles(plan)),
                         PutAll(old(stores).chartTypes, plan))
      ensures Valid()
    {
      var Stores(summaries, tables, charts, chartTypes) := stores;
      var f := ApplyFilters(t, start, end, selections);
      FilteredIsScreened(t, start, end, selections);
      var summary := Summarise(f);
      outcome := IncidentsAnalysed(f, summary);
      var types, paths := RecordCharts(sheet, f.columns, trendKind, countKinds, chartTypes, charts);
      IncidentStepValid(summaries, tables, charts, chartTypes, sheet, f, trendKind, countKinds);
      stores := Stores(Put(summaries, sheet, summary), Put(tables, sheet, f), paths, types);
    }

    /** The download page: nothing before a file has been loaded, otherwise
        the PDF story of the summaries and charts and the Excel workbook of
        the stored tables, which show the same sheets in the same order. */
    method Download() returns (r: Option<(seq<PdfReport.Element>, seq<ExcelReport.Tab>)>)
      requires Valid()
      ensures r.None? <==> workbook.None?
      ensures r.Some? ==> r.value.0 == PdfReport.Story(stores.summaries, stores.charts)
      ensures r.Some? ==> r.value.1 == ExcelReport.Workbook(stores.tables, stores.summaries, stores.chartTypes)
      ensures r.Some? ==> |Keep(r.value.0, PdfReport.IsHeading)| == |Keep(r.value.1, ExcelReport.IsRawTab)| == |stores.tables|
      ensures r.Some? ==> forall tab :: tab in r.value.1 ==> ExcelReport.WellPlanned(tab, stores.chartTypes)
    {
      if workbook.None? {
        return None;
      }
      var Stores(summaries, tables, charts, chartTypes) := stores;
      var story := PdfReport.ExportPdf(summaries, charts);
      var tabs := ExcelReport.ExportExcel(tables, summaries, chartTypes);
      StoresValidMeans(true, summaries, tables, charts, chartTypes);
      ReportsAgree(summaries, tables, charts, chartTypes);
      ExcelReport.WorkbookPlanned(tables, summaries, chartTypes);
      r := Some((story, tabs));
    }
  }
}
