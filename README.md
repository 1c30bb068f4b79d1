# HSE Monitoring dashboard — a Dafny model of its analysis and report core

The dashboard loads an Excel workbook and analyses one sheet at a time. It
keeps its results in four session stores: the summaries, the filtered tables,
the saved chart files and the chosen chart types. The download page turns
those stores into a PDF report and an Excel workbook. This project models
that core and proves what it computes:

- `Tables` holds cells, rows, tables, dates and months, and the column names
  the dashboard looks for.
- `SeriesOps` holds the column operations the analysis relies on: counting,
  distinct values, boolean-mask selection, value counts (sorted by count)
  and the mode.
- `Dicts` models insertion-ordered dictionaries with string keys, the way
  Python dictionaries behave: look-up, assignment, and a run of assignments.
- `Risk` models the HIRADC branch. A sheet with both a Likelihood and a
  Severity column gets a Risk Rating column, its highest rating and a
  Likelihood × Severity count matrix.
- `Incidents` models the other branch:
  - date coercion and the inclusive date-range filter;
  - one inclusion filter per categorical column (Jenis, Severity, Status);
  - the dominant value of each of those columns;
  - the monthly trend table, with its "YYYY-MM" labels;
  - the value counts of a column.
- `PdfReport` builds the list of report elements:
  - the title;
  - per stored sheet, its heading, its summary lines and its trend table;
  - every chart whose key starts with the sheet name;
  - the footer.
- `ExcelReport` builds the list of workbook tabs. Per stored table it writes
  the raw table; the trend tab when the sheet's stored summary has a trend;
  and a frequency tab for each categorical column the table has, when the
  table has rows.
  Each tab carries the chart its chart-type record prescribes, with the
  prescribed labels and cell ranges.
- `Session` holds the session object `Store`:
  - one field for the loaded workbook and one record field for the four stores;
  - `Load` for the upload page;
  - `Analyse` for a sheet page, with the widget choices as parameters;
  - `Download` for the download page.
  The invariant `Valid` states three things. Each store has no key twice. The
  summary and table stores cover the same sheets, and each summary is the
  summary of its stored table. Every chart path names its key's file, and
  every chart type is one the pickers offer.

## Model

| member | source | states |
|---|---|---|
| Risk.Classify | Hse_Monitoring.py:169 | a sheet is analysed as HIRADC exactly when it has both the Likelihood and the Severity column |
| Risk.Rated | Hse_Monitoring.py:172 | every row gets Likelihood × Severity as its Risk Rating, missing when a factor is missing or not a whole number; an existing Risk Rating column is overwritten, otherwise it is appended; no other cell changes and the row count stays |
| Risk.MaxOf | Hse_Monitoring.py:177 | the maximum is absent exactly for an empty series; otherwise it is an element of the series and at least every element |
| Risk.MaxRatingSpec | Hse_Monitoring.py:172-177 | the highest rating is absent exactly when no row has a rating; otherwise some row has that rating and no row has a higher one |
| Risk.Pairs | Hse_Monitoring.py:181 | the cross-tabulation counts exactly the rows that have both factors, and the (Likelihood, Severity) pairs are exactly those of such rows |
| Risk.Crosstab | Hse_Monitoring.py:181 | the row labels are the distinct Likelihood values, the column labels the distinct Severity values, and each cell is the number of rows with that pair |
| Risk.MatrixTotal | Hse_Monitoring.py:181 | the cells of the matrix add up to the number of rows that have both factors |
| Risk.MatrixRowTotals | Hse_Monitoring.py:181 | each matrix row adds up to the number of rows with that Likelihood |
| Risk.MatrixColumnTotals | Hse_Monitoring.py:181 | each matrix column adds up to the number of rows with that Severity |
| Risk.GridTotal | Hse_Monitoring.py:181 | the grid over the listed Likelihoods adds up to their tally among the pairs |
| Risk.RowTotal | Hse_Monitoring.py:181 | one grid row adds up to the count of its Likelihood |
| Risk.PairingsTotal | Hse_Monitoring.py:181 | counting the pairs (l, s) over every observed Likelihood l counts the rows with Severity s |
| Incidents.CoerceDates | Hse_Monitoring.py:197 | coercion keeps the columns and the row count and coerces every row's date cell |
| Incidents.CoerceRowTwice | Hse_Monitoring.py:197 | coercing a date twice is coercing it once |
| Incidents.ApplyFilters | Hse_Monitoring.py:196-207 | the filter loop leaves exactly the table the date and category filters define |
| Incidents.FilterSpec | Hse_Monitoring.py:196-207 | the filtered table keeps the columns; its rows are exactly the prepared rows that the date range and every present column's selection accept, in their original order |
| Incidents.FilteredRows | Hse_Monitoring.py:199-207 | every remaining row is dated within the range whenever the sheet has a date column, whatever other columns it has, and has a selected value in every categorical column present |
| Incidents.SelectedByDefault | Hse_Monitoring.py:205-207 | with the default selection (every option) a row passes exactly when its value is not missing |
| Incidents.FilteredIsPrepared | Hse_Monitoring.py:197 | the filtered table's dates are already coerced |
| Incidents.FilterIdempotent | Hse_Monitoring.py:196-207 | filtering a filtered table again with the same choices changes nothing |
| Incidents.FilteredIsScreened | Hse_Monitoring.py:196-207 | the filtered table has no missing value in its categorical columns and only coerced dates |
| Incidents.Dominant | Hse_Monitoring.py:213-218 | the dominant value exists exactly when the column exists and the table has rows; it is one of the column's values and occurs at least as often as any other |
| SeriesOps.Mode | Hse_Monitoring.py:214 | the mode is an element of the series and occurs at least as often as any value |
| Incidents.SummarySpec | Hse_Monitoring.py:212-222 | the summary holds the dominant Jenis, Severity and Status under their labels, each label at most once and in that order, and a trend exactly when the sheet has a date column, equal to the monthly counts of its rows |
| Incidents.TrendSpec | Hse_Monitoring.py:220 | the trend lists each month that occurs among the dated rows exactly once, in ascending order, with its number of rows; the counts add up to the number of dated rows |
| Incidents.TrendCountsEveryRow | Hse_Monitoring.py:196-220 | on a filtered sheet with a date column the trend counts every remaining row |
| Incidents.MonthLabel | Hse_Monitoring.py:221 | a month of a four-digit year is labelled with seven characters, with the dash at position 4 ("YYYY-MM") |
| Incidents.ParseMonthLabel | Hse_Monitoring.py:221 | reading a "YYYY-MM" label back gives a month of at most four year digits and two month digits |
| Incidents.MonthLabelRoundTrip | Hse_Monitoring.py:221 | the label of a month with a year below 10000 reads back as that month: the year digits spell the year and the month digits the month |
| Incidents.MonthLabelInjective | Hse_Monitoring.py:221 | two months with years below 10000 have the same label exactly when they are the same month |
| Incidents.TrendRows | Hse_Monitoring.py:221 | the trend table has one row per month, holding its label and its count |
| Incidents.TrendRowsDistinct | Hse_Monitoring.py:220-221 | a trend table over distinct months repeats no label |
| Incidents.TrendLabelsDistinct | Hse_Monitoring.py:220-221 | the trend table of a sheet's dated rows repeats no month label |
| Incidents.CountsCoverRows | Hse_Monitoring.py:92 | on a filtered table the value counts of a present column add up to the row count and are empty exactly when the table is |
| SeriesOps.ValueCountsSpec | Hse_Monitoring.py:251 | value counts list each distinct value once, with its positive count, in non-increasing order of count, and the counts add up to the series length |
| SeriesOps.Distinct | Hse_Monitoring.py:205 | the options are duplicate-free and are exactly the column's values |
| SeriesOps.Keep | Hse_Monitoring.py:200 | a boolean mask keeps exactly the elements satisfying it |
| SeriesOps.KeepSubsequence | Hse_Monitoring.py:200 | a boolean mask keeps the order of the remaining rows |
| SeriesOps.SortByCount | Hse_Monitoring.py:251 | sorting by count permutes the keys (the same multiset), keeps them duplicate-free and orders them by non-increasing count |
| SeriesOps.InsertByCount | Hse_Monitoring.py:251 | inserting a key adds exactly that key to the multiset of keys and keeps an order by count |
| Tables.ColumnValues | Hse_Monitoring.py:205 | the non-missing values of a column are exactly the values present in its rows |
| Dicts.Lookup | Hse_Monitoring.py:72 | a look-up finds a value exactly for a key that is present |
| Dicts.Put | Hse_Monitoring.py:191 | assignment keeps the key order, appending a new key at the end, and stores the value under the key, leaving every other key's value as it was |
| Dicts.PutPut | Hse_Monitoring.py:275-276 | assigning a key twice is assigning the last value |
| Dicts.PutNoDup | Hse_Monitoring.py:191 | assignment never produces a key twice |
| Dicts.PutSame | Hse_Monitoring.py:275-276 | re-assigning the stored value changes nothing |
| Dicts.PutAllPrefix | Hse_Monitoring.py:241-265 | a run of assignments keeps the existing keys in front, in their order |
| Dicts.PutAllMembers | Hse_Monitoring.py:241-265 | after a run of assignments the keys are the old keys and the assigned keys |
| Dicts.PutAllOthers | Hse_Monitoring.py:241-265 | a key the run does not assign keeps its value |
| Dicts.PutAllNoDup | Hse_Monitoring.py:241-265 | a run of assignments never produces a key twice |
| Dicts.PutAllKeeps | Hse_Monitoring.py:241-265 | a property of every entry survives a run of assignments of entries that have it |
| Dicts.PutAllTwice | Hse_Monitoring.py:241-265 | repeating a run of assignments changes nothing |
| Dicts.DictExt | Hse_Monitoring.py:275-276 | two dictionaries with the same keys, in order, and the same look-ups are equal |
| Session.Analysis | Hse_Monitoring.py:159-207 | a sheet page finds no sheet exactly when nothing is loaded or the workbook lacks the sheet; it warns exactly for an empty sheet; it runs the HIRADC branch exactly for a non-empty sheet with both factor columns |
| Session.AnalysisSpec | Hse_Monitoring.py:163-222 | the HIRADC figures are those of the rated sheet; the trend branch keeps exactly the rows the filters accept and summarises that screened table |
| Session.ChartPath | Hse_Monitoring.py:189 | a chart's file name is its key followed by the four-character extension |
| Session.RecordCharts | Hse_Monitoring.py:219-265 | the chart-type and chart-path stores receive exactly the assignments of the sheet's chart plan, in order |
| Session.ChartPlanTrend | Hse_Monitoring.py:219-225 | the trend chart is planned, with the picked kind, exactly when the sheet has a date column |
| Session.ChartPlanCount | Hse_Monitoring.py:246-249 | a frequency chart is planned, with the kind picked for it, exactly when the sheet has its column |
| Session.ChartPlanPrefix | Hse_Monitoring.py:241-265 | every planned chart key starts with the sheet name, as the PDF report requires to show it under that sheet |
| Session.ChartPlanNoDup | Hse_Monitoring.py:224-265 | no chart key is planned twice |
| Session.ChartPlanOnly | Hse_Monitoring.py:219-265 | each planned chart is the trend chart of a dated sheet or the frequency chart of a categorical column the sheet has |
| Session.ChartPlanSpec | Hse_Monitoring.py:219-265 | the chart-plan facts together: the trend and frequency charts the sheet has, nothing else, keys starting with the sheet name and none twice |
| Session.ConsistentPut | Hse_Monitoring.py:275-276 | storing a screened table together with its summary keeps every stored summary the summary of its stored table |
| Session.RecordsValid | Hse_Monitoring.py:224-265 | recording a sheet's charts keeps every path record its key's file name and every type record an offered kind |
| Session.PlanKinds | Hse_Monitoring.py:224-249 | every planned chart type is one the pickers offer |
| Session.MatrixPathValid | Hse_Monitoring.py:189-191 | recording the risk-matrix chart keeps every path record its key's file name |
| Session.StoresValidMeans | Hse_Monitoring.py:152-156 | the store invariant means: all stores are empty before any load, no store has a key twice, summaries and tables cover the same sheets and agree, and the chart paths and types are well formed |
| Session.MatrixStepValid | Hse_Monitoring.py:189-191 | the HIRADC page keeps the store invariant |
| Session.IncidentStepValid | Hse_Monitoring.py:224-276 | the trend page keeps the store invariant |
| Session.ReanalysisStable | Hse_Monitoring.py:224-276 | analysing the same sheet again with the same choices leaves all four stores as they were |
| Session.ReportsAgree | Hse_Monitoring.py:284-287 | the PDF headings and the raw Excel tabs are as many as the stored tables and name the same sheets in the same order |
| Session.StoredSheetTabs | Hse_Monitoring.py:72-94 | for a stored sheet the trend tab exists exactly when the table has a date column, and every frequency tab's counts are non-empty and add up to the table's row count |
| Session.Store.Load | Hse_Monitoring.py:150-156 | loading a file sets the workbook and empties the four stores |
| Session.Store.Analyse | Hse_Monitoring.py:159-276 | a sheet page shows the analysis of its sheet; the HIRADC branch changes only the chart store, which gets the matrix chart; the trend branch records the filtered table, its summary and the planned chart types and files; the invariant holds afterwards |
| Session.Store.AnalyseRisk | Hse_Monitoring.py:168-191 | the HIRADC branch: the rated table, its highest rating and its matrix, and the matrix chart recorded |
| Session.Store.AnalyseIncidents | Hse_Monitoring.py:193-276 | the trend branch: the filtered table and its summary, both stored, with the chart types and files of the sheet's plan |
| Session.Store.Download | Hse_Monitoring.py:278-287 | nothing before a file is loaded; afterwards the PDF story and the Excel tabs of the stores, with as many PDF headings as raw tabs as stored tables, and every tab carrying the chart its type record prescribes |
| PdfReport.ExportPdf | Hse_Monitoring.py:14-57 | the export loop builds exactly the report story |
| PdfReport.AppendSection | Hse_Monitoring.py:23-48 | one pass of the sheet loop appends exactly that sheet's section |
| PdfReport.StoryFrame | Hse_Monitoring.py:20-52 | the report opens with the title and ends with the copyright footer, and neither occurs anywhere else |
| PdfReport.StoryContents | Hse_Monitoring.py:23-42 | the report has one heading per stored summary, in store order, and one trend table per summary with a trend |
| PdfReport.SectionOrder | Hse_Monitoring.py:24-42 | a section is the heading, the summary lines in order, a spacer and then the trend table when there is one |
| PdfReport.SectionImages | Hse_Monitoring.py:45-48 | a section shows exactly the charts whose key starts with the sheet name, in chart-store order |
| PdfReport.ChartImagesSelect | Hse_Monitoring.py:45-48 | the chart loop selects exactly the charts whose key starts with the sheet name |
| PdfReport.SectionsHeadings | Hse_Monitoring.py:23-24 | the sections have one heading per stored summary, in store order |
| PdfReport.SectionsTables | Hse_Monitoring.py:31-42 | the sections have as many trend tables as there are summaries with a trend |
| PdfReport.EntryLines | Hse_Monitoring.py:25-28 | one line per summary entry, holding its name and value, in order |
| PdfReport.PrefixPicksUpOtherSheets | Hse_Monitoring.py:45-46 | for any chart store, every chart of a sheet whose name starts with another sheet's name is also shown in that other sheet's section |
| ExcelReport.ExportExcel | Hse_Monitoring.py:63-118 | the export loop writes exactly the workbook's tabs, sheet by sheet |
| ExcelReport.AppendCountTabs | Hse_Monitoring.py:90-116 | the column loop appends exactly the sheet's frequency tabs |
| ExcelReport.LookupOr | Hse_Monitoring.py:77 | the recorded chart type when there is one, otherwise the default |
| ExcelReport.SheetTabsLayout | Hse_Monitoring.py:68-116 | a sheet's tabs are the raw table; then, exactly when its summary has a trend, the trend tab with the trend rows; then one frequency tab per present, non-empty categorical column, named `{sheet}_{col}`, holding its value counts |
| ExcelReport.CountTabsLayout | Hse_Monitoring.py:90-94 | there is one frequency tab per charted column, in column order |
| ExcelReport.WorkbookPlanned | Hse_Monitoring.py:72-116 | every tab's chart has the recorded kind or the default; pie charts carry percentage labels and other frequency charts value labels; series span exactly the tab's data rows |
| ExcelReport.WorkbookRawTabs | Hse_Monitoring.py:68-69 | the raw tabs are exactly the stored tables, in store order |
| ExcelReport.SheetRawTabs | Hse_Monitoring.py:68-69 | each sheet contributes exactly one raw tab |
| ExcelReport.AnalysedSheetTabs | Hse_Monitoring.py:72-94 | for a summarised, screened table the trend tab exists exactly when it has a date column, and every frequency tab holds non-empty counts adding up to its rows |
| ExcelReport.CountTabsKinds | Hse_Monitoring.py:90-94 | frequency tabs hold value counts |

## Left out

- The sidebar menu and page routing are not modelled. A sheet page is one
  `Analyse` call and the download page is one `Download` call. In the
  routing, a sheet named "Home" or "Upload File Excel" is shadowed by the
  earlier branches. A sheet named "Download Laporan" makes the download page
  unreachable.
- File input: reading the workbook and its sheets is not modelled. A loaded
  workbook is given as a dictionary of already-read tables.
- Dates are given already parsed. Coercion keeps a day and turns anything
  else into a missing date.
- The date picker's default range (the minimum and maximum date) is not
  modelled. The chosen range is a parameter.
- Widget choices are parameters: the multiselect choices per column
  (defaulting to every option when absent) and the chart-type pickers.
- Rendering is not modelled: figures, heat maps, saving images, document
  bytes, table styles and the dashboard's own display. The model keeps the
  chart keys, file names, kinds, titles, labels and cell ranges.
- The mean Risk Rating is left out, because it is floating point.
- Ratings are modelled only for whole-number factors, and a factor that is
  not a whole number gives a missing rating. The source multiplies whatever
  the cells hold instead (Hse_Monitoring.py:172). Text times a whole number
  repeats the text, text times text raises a TypeError, and a fractional
  factor gives a fractional rating.
- Mode and value counts break ties by first occurrence; pandas breaks them
  by its own ordering. The cross-tabulation's row and column labels are
  kept in order of first occurrence, not sorted.
- Incidents.MonthLabelRoundTrip: stated for years below 10000 and months below
  100, the range a fixed-width "YYYY-MM" label can hold.
- Excel's sheet-name length limit and duplicate-name handling are not
  modelled.
- The download page's warning reads "Belum ada analisa yang tersimpan" (no
  analysis stored yet), but the code (Hse_Monitoring.py:281) only tests
  whether the stores exist. They exist from the first load, so the model
  follows the code: `Download` gives nothing only before any file is loaded.
- The four stores are one record field of the session object. The source keeps them as four separate session-state
  dictionaries, so the model does not capture their separate aliasing.
