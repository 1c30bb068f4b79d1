/** The layout of the PDF report: the ordered "story" of flowables handed to
    the document builder. Styles, markup and the page rendering are not part
    of the model; each flowable is described by what it shows. */
module PdfReport {
  import opened Tables
  import opened SeriesOps
  import opened Dicts
  import opened Incidents

  datatype Element =
    | Title(text: string)
    | Spacer(height: nat)
    | Heading(text: string)
    | Line(key: string, value: Value)
    | TrendTable(header: seq<string>, rows: seq<(string, nat)>)
    | Image(path: string, width: nat, height: nat)
    | Footer(text: string)

  const ReportTitle := "Laporan HSE"
  const FooterText := "\U{00A9} 2025 Tito Prasetyo Ashiddiq"

  /** The trend table's header row: the frame's two columns. */
  const TrendHeader: seq<string> := [DateColumn, "Jumlah"]

  const ImageWidth: nat := 400
  const ImageHeight: nat := 250

  predicate IsHeading(e: Element) { e.Heading? }
  predicate IsTable(e: Element) { e.TrendTable? }
  predicate IsImage(e: Element) { e.Image? }

  /** The stored summary of a sheet carries a trend table. */
  predicate HasTrend(entry: (string, Summary)) { entry.1.trend.Some? }

  /** The chart key belongs to the sheet: `key.startswith(sheet_name)`. */
  predicate BelongsTo(chart: (string, string), sheet: string)
  {
    sheet <= chart.0
  }

  // ---------------------------------------------------------------------------
  // The story, as a function of the two stores

  function Opening(): seq<Element>
  {
    [Title(ReportTitle), Spacer(12)]
  }

  function Closing(): seq<Element>
  {
    [Spacer(50), Footer(FooterText)]
  }

  /** One line per scalar summary entry, in entry order. */
  function EntryLines(entries: Dict<Value>): (es: seq<Element>)
    ensures |es| == |entries|
    ensures forall i :: 0 <= i < |entries| ==> es[i] == Line(entries[i].0, entries[i].1)
    decreases |entries|
  {
    if entries == [] then []
    else EntryLines(entries[..|entries| - 1]) + [Line(entries[|entries| - 1].0, entries[|entries| - 1].1)]
  }

  /** The trend table and its spacer, when the summary has a trend. */
  function TrendBlock(trend: Option<seq<Entry<Month>>>): seq<Element>
  {
    match trend
    case Some(tr) => [TrendTable(TrendHeader, TrendRows(tr)), Spacer(6)]
    case None => []
  }

  /** An image and its spacer for every chart whose key starts with the sheet name. */
  function ChartImages(charts: Dict<string>, sheet: string): seq<Element>
    decreases |charts|
  {
    if charts == [] then []
    else
      var last := charts[|charts| - 1];
      ChartImages(charts[..|charts| - 1], sheet)
        + (if BelongsTo(last, sheet) then [Image(last.1, ImageWidth, ImageHeight), Spacer(12)] else [])
  }

  function Section(sheet: string, summary: Summary, charts: Dict<string>): seq<Element>
  {
    [Heading(sheet)] + EntryLines(summary.dominant) + [Spacer(6)]
      + TrendBlock(summary.trend) + ChartImages(charts, sheet)
  }

  function Sections(summaries: Dict<Summary>, charts: Dict<string>): seq<Element>
    decreases |summaries|
  {
    if summaries == [] then []
    else
      var last := summaries[|summaries| - 1];
      Sections(summaries[..|summaries| - 1], charts) + Section(last.0, last.1, charts)
  }

  function Story(summaries: Dict<Summary>, charts: Dict<string>): seq<Element>
  {
    Opening() + Sections(summaries, charts) + Closing()
  }

  // ---------------------------------------------------------------------------
  // The builder

  /** `export_pdf`: appends the flowables one by one, sheet by sheet. */
  method ExportPdf(summaries: Dict<Summary>, charts: Dict<string>) returns (story: seq<Element>)
    ensures story == Story(summaries, charts)
  {
    story := [];
    story := story + [Title(ReportTitle)];
    story := story + [Spacer(12)];
    for i := 0 to |summaries|
      invariant story == Opening() + Sections(summaries[..i], charts)
    {
      Assoc(Opening(), Sections(summaries[..i], charts), Section(summaries[i].0, summaries[i].1, charts));
      story := AppendSection(story, summaries[i].0, summaries[i].1, charts);
      SectionsSnoc(summaries, charts, i);
    }
    assert summaries[..|summaries|] == summaries;
    story := story + [Spacer(50)];
    story := story + [Footer(FooterText)];
  }

  /** The body of the sheet loop: the heading, the scalar entries, the trend
      table and the sheet's charts, appended to the story. */
  method AppendSection(story: seq<Element>, sheet: string, summary: Summary, charts: Dict<string>) returns (r: seq<Element>)
    ensures r == story + Section(sheet, summary, charts)
  {
    var head := story + [Heading(sheet)];
    r := head;
    for j := 0 to |summary.dominant|
      invariant r == head + EntryLines(summary.dominant[..j])
    {
      var line := Line(summary.dominant[j].0, summary.dominant[j].1);
      Assoc(head, EntryLines(summary.dominant[..j]), [line]);
      r := r + [line];
      EntryLinesSnoc(summary.dominant, j);
    }
    assert summary.dominant[..|summary.dominant|] == summary.dominant;
    Assoc(story, [Heading(sheet)], EntryLines(summary.dominant));
    Assoc(story, [Heading(sheet)] + EntryLines(summary.dominant), [Spacer(6)]);
    r := r + [Spacer(6)];
    ghost var front := [Heading(sheet)] + EntryLines(summary.dominant) + [Spacer(6)];
    assert r == story + front;
    if summary.trend.Some? {
      var table := TrendTable(TrendHeader, TrendRows(summary.trend.value));
      Assoc(story + front, [table], [Spacer(6)]);
      r := r + [table];
      r := r + [Spacer(6)];
      assert [table] + [Spacer(6)] == TrendBlock(summary.trend);
    }
    Assoc(story, front, TrendBlock(summary.trend));
    ghost var middle := r;
    assert middle == story + (front + TrendBlock(summary.trend));
    for j := 0 to |charts|
      invariant r == middle + ChartImages(charts[..j], sheet)
    {
      var shown := r;
      if BelongsTo(charts[j], sheet) {
        var image := Image(charts[j].1, ImageWidth, ImageHeight);
        Assoc(shown, [image], [Spacer(12)]);
        r := r + [image];
        r := r + [Spacer(12)];
        assert r == shown + [image, Spacer(12)];
      }
      Assoc(middle, ChartImages(charts[..j], sheet),
        if BelongsTo(charts[j], sheet) then [Image(charts[j].1, ImageWidth, ImageHeight), Spacer(12)] else []);
      ChartImagesSnoc(charts, sheet, j);
    }
    assert charts[..|charts|] == charts;
    Assoc(story, front + TrendBlock(summary.trend), ChartImages(charts, sheet));
  }

  lemma EntryLinesSnoc(entries: Dict<Value>, j: nat)
    requires j < |entries|
    ensures EntryLines(entries[..j + 1]) == EntryLines(entries[..j]) + [Line(entries[j].0, entries[j].1)]
  {
    assert entries[..j + 1][..j] == entries[..j];
  }

  lemma ChartImagesSnoc(charts: Dict<string>, sheet: string, j: nat)
    requires j < |charts|
    ensures ChartImages(charts[..j + 1], sheet) == ChartImages(charts[..j], sheet)
      + (if BelongsTo(charts[j], sheet) then [Image(charts[j].1, ImageWidth, ImageHeight), Spacer(12)] else [])
  {
    assert charts[..j + 1][..j] == charts[..j];
  }

  lemma SectionsSnoc(summaries: Dict<Summary>, charts: Dict<string>, i: nat)
    requires i < |summaries|
    ensures Sections(summaries[..i + 1], charts) == Sections(summaries[..i], charts) + Section(summaries[i].0, summaries[i].1, charts)
  {
    assert summaries[..i + 1][..i] == summaries[..i];
  }

  // ---------------------------------------------------------------------------
  // Layout properties

  /** The images of a sheet's charts, in chart order. */
  function ImagesOf(charts: Dict<string>): (es: seq<Element>)
    ensures |es| == |charts|
    ensures forall i :: 0 <= i < |charts| ==> es[i] == Image(charts[i].1, ImageWidth, ImageHeight)
  {
    seq(|charts|, i requires 0 <= i < |charts| => Image(charts[i].1, ImageWidth, ImageHeight))
  }

  function HeadingsOf(sheets: seq<string>): (es: seq<Element>)
    ensures |es| == |sheets|
    ensures forall i :: 0 <= i < |sheets| ==> es[i] == Heading(sheets[i])
  {
    seq(|sheets|, i requires 0 <= i < |sheets| => Heading(sheets[i]))
  }

  lemma {:induction false} EntryLinesPlain(entries: Dict<Value>)
    ensures forall e :: e in EntryLines(entries) ==> e.Line?
  {
  }

  lemma {:induction false} ChartImagesPlain(charts: Dict<string>, sheet: string)
    ensures forall e :: e in ChartImages(charts, sheet) ==> e.Image? || e.Spacer?
    decreases |charts|
  {
    if charts != [] {
      ChartImagesPlain(charts[..|charts| - 1], sheet);
    }
  }

  lemma HeadingsOfAppend(a: seq<string>, b: seq<string>)
    ensures HeadingsOf(a + b) == HeadingsOf(a) + HeadingsOf(b)
  {
  }

  lemma ImagesOfAppend(a: Dict<string>, b: Dict<string>)
    ensures ImagesOf(a + b) == ImagesOf(a) + ImagesOf(b)
  {
  }

  /** A sheet's chart images are one image per chart of that sheet, in chart order. */
  lemma {:induction false} ChartImagesSelect(charts: Dict<string>, sheet: string)
    ensures Keep(ChartImages(charts, sheet), IsImage) == ImagesOf(Keep(charts, c => BelongsTo(c, sheet)))
    decreases |charts|
  {
    if charts != [] {
      var n := |charts| - 1;
      var last := charts[n];
      var init := charts[..n];
      var p := c => BelongsTo(c, sheet);
      var image := Image(last.1, ImageWidth, ImageHeight);
      var tail := if BelongsTo(last, sheet) then [image, Spacer(12)] else [];
      var mine := if BelongsTo(last, sheet) then [image] else [];
      assert ImagesOf(Keep(charts, p)) == ImagesOf(Keep(init, p)) + mine by {
        assert charts == init + [last];
        KeepAppend(init, [last], p);
        KeepSingle(last, p);
        ImagesOfAppend(Keep(init, p), Keep([last], p));
      }
      assert Keep(tail, IsImage) == mine by {
        if BelongsTo(last, sheet) {
          KeepAppend([image], [Spacer(12)], IsImage);
          KeepSingle(image, IsImage);
          KeepSingle(Spacer(12), IsImage);
          assert [image] + [Spacer(12)] == tail;
        }
      }
      assert Keep(ChartImages(charts, sheet), IsImage) == Keep(ChartImages(init, sheet), IsImage) + Keep(tail, IsImage) by {
        assert ChartImages(charts, sheet) == ChartImages(init, sheet) + tail;
        KeepAppend(ChartImages(init, sheet), tail, IsImage);
      }
      ChartImagesSelect(init, sheet);
    }
  }

  /** No element of a section is a title or a footer. */
  lemma SectionPlain(sheet: string, summary: Summary, charts: Dict<string>)
    ensures forall e :: e in Section(sheet, summary, charts) ==> !e.Title? && !e.Footer?
  {
    var a := [Heading(sheet)] + EntryLines(summary.dominant) + [Spacer(6)];
    EntryLinesPlain(summary.dominant);
    ChartImagesPlain(charts, sheet);
    assert Section(sheet, summary, charts) == a + TrendBlock(summary.trend) + ChartImages(charts, sheet);
  }

  /** A mask that no entry line and no spacer satisfies selects, from a section,
      what it selects from the heading, the trend block and the images. */
  lemma SectionKeep(sheet: string, summary: Summary, charts: Dict<string>, p: Element -> bool)
    requires forall e: Element :: e.Line? || e.Spacer? ==> !p(e)
    ensures Keep(Section(sheet, summary, charts), p)
      == Keep([Heading(sheet)], p) + Keep(TrendBlock(summary.trend), p) + Keep(ChartImages(charts, sheet), p)
  {
    var lines := EntryLines(summary.dominant);
    var trend := TrendBlock(summary.trend);
    var images := ChartImages(charts, sheet);
    EntryLinesPlain(summary.dominant);
    KeepNone(lines, p);
    KeepNone([Spacer(6)], p);
    KeepAppend([Heading(sheet)], lines, p);
    KeepAppend([Heading(sheet)] + lines, [Spacer(6)], p);
    KeepAppend([Heading(sheet)] + lines + [Spacer(6)], trend, p);
    KeepAppend([Heading(sheet)] + lines + [Spacer(6)] + trend, images, p);
  }

  /** A section has one heading, its own. */
  lemma SectionHeadings(sheet: string, summary: Summary, charts: Dict<string>)
    ensures Keep(Section(sheet, summary, charts), IsHeading) == [Heading(sheet)]
  {
    SectionKeep(sheet, summary, charts, IsHeading);
    ChartImagesPlain(charts, sheet);
    KeepNone(TrendBlock(summary.trend), IsHeading);
    KeepNone(ChartImages(charts, sheet), IsHeading);
  }

  /** A section has a trend table exactly when the summary has a trend. */
  lemma SectionTables(sheet: string, summary: Summary, charts: Dict<string>)
    ensures |Keep(Section(sheet, summary, charts), IsTable)| == if summary.trend.Some? then 1 else 0
  {
    SectionKeep(sheet, summary, charts, IsTable);
    ChartImagesPlain(charts, sheet);
    KeepNone(ChartImages(charts, sheet), IsTable);
    if summary.trend.Some? {
      var tt := TrendTable(TrendHeader, TrendRows(summary.trend.value));
      assert TrendBlock(summary.trend) == [tt] + [Spacer(6)];
      KeepAppend([tt], [Spacer(6)], IsTable);
    }
  }

  /** A section shows one image for each chart whose key starts with the sheet
      name, in the order the charts were recorded. */
  lemma SectionImages(sheet: string, summary: Summary, charts: Dict<string>)
    ensures Keep(Section(sheet, summary, charts), IsImage) == ImagesOf(Keep(charts, c => BelongsTo(c, sheet)))
  {
    SectionKeep(sheet, summary, charts, IsImage);
    KeepNone(TrendBlock(summary.trend), IsImage);
    ChartImagesSelect(charts, sheet);
  }

  /** A section opens with the heading, then a line per scalar summary entry
      in entry order, then a spacer, then the trend table when there is one. */
  lemma SectionOrder(sheet: string, summary: Summary, charts: Dict<string>)
    ensures var sec := Section(sheet, summary, charts);
      var n := |summary.dominant|;
      && |sec| >= n + 2
      && sec[0] == Heading(sheet)
      && (forall i :: 0 <= i < n ==> sec[1 + i] == Line(summary.dominant[i].0, summary.dominant[i].1))
      && sec[1 + n] == Spacer(6)
      && (summary.trend.Some? ==> |sec| > n + 2 && sec[n + 2] == TrendTable(TrendHeader, TrendRows(summary.trend.value)))
  {
    var sec := Section(sheet, summary, charts);
    var n := |summary.dominant|;
    var front := [Heading(sheet)] + EntryLines(summary.dominant) + [Spacer(6)];
    assert sec == front + (TrendBlock(summary.trend) + ChartImages(charts, sheet));
    forall i | 0 <= i < n ensures sec[1 + i] == Line(summary.dominant[i].0, summary.dominant[i].1) {
      assert sec[1 + i] == front[1 + i];
    }
  }

  /** The sections hold one heading per summarised sheet, in the order the
      sheets were first summarised. */
  lemma {:induction false} SectionsHeadings(summaries: Dict<Summary>, charts: Dict<string>)
    ensures Keep(Sections(summaries, charts), IsHeading) == HeadingsOf(Keys(summaries))
    decreases |summaries|
  {
    if summaries != [] {
      var n := |summaries| - 1;
      var last := summaries[n];
      var init := summaries[..n];
      var sec := Section(last.0, last.1, charts);
      var body := Sections(init, charts);
      assert summaries == init + [last];
      assert Keep(body, IsHeading) == HeadingsOf(Keys(init)) by {
        SectionsHeadings(init, charts);
      }
      assert Keep(sec, IsHeading) == [Heading(last.0)] by {
        SectionHeadings(last.0, last.1, charts);
      }
      assert Keys(summaries) == Keys(init) + [last.0] by {
        KeysAppend(init, [last]);
      }
      HeadingsOfAppend(Keys(init), [last.0]);
      KeepAppend(body, sec, IsHeading);
    }
  }

  /** The sections hold one trend table per sheet whose summary has a trend. */
  lemma {:induction false} SectionsTables(summaries: Dict<Summary>, charts: Dict<string>)
    ensures |Keep(Sections(summaries, charts), IsTable)| == |Keep(summaries, HasTrend)|
    decreases |summaries|
  {
    if summaries != [] {
      var n := |summaries| - 1;
      var last := summaries[n];
      var init := summaries[..n];
      var sec := Section(last.0, last.1, charts);
      var body := Sections(init, charts);
      assert summaries == init + [last];
      assert |Keep(body, IsTable)| == |Keep(init, HasTrend)| by {
        SectionsTables(init, charts);
      }
      assert |Keep(sec, IsTable)| == |Keep([last], HasTrend)| by {
        SectionTables(last.0, last.1, charts);
        KeepSingle(last, HasTrend);
      }
      KeepAppend(body, sec, IsTable);
      KeepAppend(init, [last], HasTrend);
    }
  }

  /** No element of the sections is a title or a footer. */
  lemma {:induction false} SectionsPlain(summaries: Dict<Summary>, charts: Dict<string>)
    ensures forall e :: e in Sections(summaries, charts) ==> !e.Title? && !e.Footer?
    decreases |summaries|
  {
    if summaries != [] {
      var last := summaries[|summaries| - 1];
      SectionsPlain(summaries[..|summaries| - 1], charts);
      SectionPlain(last.0, last.1, charts);
    }
  }

  /** The story opens with the title and closes with the footer, and neither
      appears anywhere else. */
  lemma StoryFrame(summaries: Dict<Summary>, charts: Dict<string>)
    ensures var story := Story(summaries, charts);
      && |story| >= 4
      && story[0] == Title(ReportTitle)
      && story[|story| - 1] == Footer(FooterText)
      && (forall i :: 0 < i < |story| ==> !story[i].Title?)
      && (forall i :: 0 <= i < |story| - 1 ==> !story[i].Footer?)
  {
    var story := Story(summaries, charts);
    var body := Sections(summaries, charts);
    var front := Opening() + body;
    SectionsPlain(summaries, charts);
    assert story == front + Closing();
    forall i | 0 < i < |story| ensures !story[i].Title? && (i < |story| - 1 ==> !story[i].Footer?) {
      if i < |front| {
        assert story[i] == front[i];
        if i >= 2 {
          assert front[i] == body[i - 2];
          assert body[i - 2] in body;
        }
      } else {
        assert story[i] == Closing()[i - |front|];
      }
    }
  }

  /** A mask that neither the title nor the footer nor a spacer satisfies
      selects from the story what it selects from the sections. */
  lemma StoryKeep(summaries: Dict<Summary>, charts: Dict<string>, p: Element -> bool)
    requires forall e: Element :: e.Title? || e.Footer? || e.Spacer? ==> !p(e)
    ensures Keep(Story(summaries, charts), p) == Keep(Sections(summaries, charts), p)
  {
    var body := Sections(summaries, charts);
    assert Keep(Opening(), p) == [] by {
      KeepNone(Opening(), p);
    }
    assert Keep(Closing(), p) == [] by {
      KeepNone(Closing(), p);
    }
    KeepAppend(Opening(), body, p);
    KeepAppend(Opening() + body, Closing(), p);
  }

  /** Between title and footer the story holds one heading per summarised
      sheet, in the order the sheets were first summarised, and one trend
      table per sheet whose summary has a trend. */
  lemma StoryContents(summaries: Dict<Summary>, charts: Dict<string>)
    ensures Keep(Story(summaries, charts), IsHeading) == HeadingsOf(Keys(summaries))
    ensures |Keep(Story(summaries, charts), IsTable)| == |Keep(summaries, HasTrend)|
  {
    SectionsHeadings(summaries, charts);
    SectionsTables(summaries, charts);
    StoryKeep(summaries, charts, IsHeading);
    StoryKeep(summaries, charts, IsTable);
  }

  /** The chart match is a literal prefix test: a sheet whose name is a prefix
      of another sheet's name also shows every chart of that other sheet. */
  lemma PrefixPicksUpOtherSheets(short: string, long: string, summary: Summary, charts: Dict<string>)
    requires short <= long
    ensures forall c :: c in charts && long <= c.0 ==>
      Image(c.1, ImageWidth, ImageHeight) in Section(short, summary, charts)
  {
    var kept := Keep(charts, c => BelongsTo(c, short));
    SectionImages(short, summary, charts);
    forall c | c in charts && long <= c.0
      ensures Image(c.1, ImageWidth, ImageHeight) in Section(short, summary, charts)
    {
      assert short <= c.0 by {
        assert c.0[..|short|] == long[..|short|];
      }
      assert c in kept;
      var i :| 0 <= i < |kept| && kept[i] == c;
      assert ImagesOf(kept)[i] == Image(c.1, ImageWidth, ImageHeight);
      assert Image(c.1, ImageWidth, ImageHeight) in Keep(Section(short, summary, charts), IsImage);
    }
  }
}
