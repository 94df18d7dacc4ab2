/** The rows, document and file name `downloadCSV` produces from a dataset. */
module Export {
  import opened Wrappers
  import opened Records
  import opened Csv

  /** `collectionStarted || 'Unknown'`. */
  function StartedText(started: Option<string>): string {
    if Started(started) then started.value else "Unknown"
  }

  function Padded(name: string, value: string): Row {
    [Str(name), Str(value), Str([]), Str([]), Str([])]
  }

  /** `csvRows`: six metadata rows, a blank separator, then every stored row. */
  function CsvRows(d: Dataset, generated: string): seq<Row> {
    [Padded("Collection Info", []),
     Padded("Generated", generated),
     Padded("Collection Started", StartedText(d.metadata.collectionStarted)),
     Padded("Total Results", IntToString(|d.results| - 1)),
     Padded("Total Pages", IntToString(d.metadata.totalPages)),
     Padded("Queries", Join(d.metadata.queries, " | ")),
     Padded([], [])] + d.results
  }

  /** `csvContent`. */
  function CsvDocument(d: Dataset, generated: string): string {
    EncodeLines(RowTexts(CsvRows(d, generated)))
  }

  /** The exported document decodes to exactly the rows that were encoded. */
  lemma CsvDocumentDecodes(d: Dataset, generated: string)
    ensures ParseCsv(CsvDocument(d, generated)) == Some(RowTexts(CsvRows(d, generated)))
  {
    ParseEncodeLines(RowTexts(CsvRows(d, generated)));
  }

  /**
   * The rows a CSV reader gets back from the export: exactly `7 + |results|`
   * of them, the metadata in rows 0 to 6, then the stored rows in storage
   * order with every cell as `(cell || '').toString()`.
   */
  lemma CsvRowsLayout(d: Dataset, generated: string)
    ensures var rows := RowTexts(CsvRows(d, generated));
      |rows| == 7 + |d.results|
      && rows[0] == ["Collection Info", "", "", "", ""]
      && rows[1] == ["Generated", generated, "", "", ""]
      && rows[2] == ["Collection Started", StartedText(d.metadata.collectionStarted), "", "", ""]
      && rows[3] == ["Total Results", IntToString(|d.results| - 1), "", "", ""]
      && rows[4] == ["Total Pages", IntToString(d.metadata.totalPages), "", "", ""]
      && rows[5] == ["Queries", Join(d.metadata.queries, " | "), "", "", ""]
      && rows[6] == ["", "", "", "", ""]
      && (forall k :: 0 <= k < |d.results| ==> rows[7 + k] == RowText(d.results[k]))
  {
    CsvRowsHead(d, generated);
    CsvRowsBody(d, generated);
  }

  lemma CsvRowsHead(d: Dataset, generated: string)
    ensures var rows := RowTexts(CsvRows(d, generated));
      |rows| == 7 + |d.results|
      && rows[0] == ["Collection Info", "", "", "", ""]
      && rows[1] == ["Generated", generated, "", "", ""]
      && rows[2] == ["Collection Started", StartedText(d.metadata.collectionStarted), "", "", ""]
      && rows[3] == ["Total Results", IntToString(|d.results| - 1), "", "", ""]
      && rows[4] == ["Total Pages", IntToString(d.metadata.totalPages), "", "", ""]
      && rows[5] == ["Queries", Join(d.metadata.queries, " | "), "", "", ""]
      && rows[6] == ["", "", "", "", ""]
  {
    CsvRowsInfo(d, generated);
    CsvRowsTotals(d, generated);
    CsvRowsQueries(d, generated);
  }

  /** Rows 0 to 2: the title row, the generation time and the start time. */
  lemma CsvRowsInfo(d: Dataset, generated: string)
    ensures var rows := RowTexts(CsvRows(d, generated));
      |rows| == 7 + |d.results|
      && rows[0] == ["Collection Info", "", "", "", ""]
      && rows[1] == ["Generated", generated, "", "", ""]
      && rows[2] == ["Collection Started", StartedText(d.metadata.collectionStarted), "", "", ""]
  {
    var cells := CsvRows(d, generated);
    var started := StartedText(d.metadata.collectionStarted);
    assert cells[0] == Padded("Collection Info", []);
    HeadRow(cells, 0, "Collection Info", []);
    assert cells[1] == Padded("Generated", generated);
    HeadRow(cells, 1, "Generated", generated);
    assert cells[2] == Padded("Collection Started", started);
    HeadRow(cells, 2, "Collection Started", started);
  }

  /** Rows 3 and 4: the two totals. */
  lemma CsvRowsTotals(d: Dataset, generated: string)
    ensures var rows := RowTexts(CsvRows(d, generated));
      |rows| == 7 + |d.results|
      && rows[3] == ["Total Results", IntToString(|d.results| - 1), "", "", ""]
      && rows[4] == ["Total Pages", IntToString(d.metadata.totalPages), "", "", ""]
  {
    CsvRowsResults(d, generated);
    CsvRowsPages(d, generated);
  }

  lemma CsvRowsResults(d: Dataset, generated: string)
    ensures var rows := RowTexts(CsvRows(d, generated));
      |rows| == 7 + |d.results| && rows[3] == ["Total Results", IntToString(|d.results| - 1), "", "", ""]
  {
    var cells := CsvRows(d, generated);
    var results := IntToString(|d.results| - 1);
    assert cells[3] == Padded("Total Results", results);
    HeadRow(cells, 3, "Total Results", results);
  }

  lemma CsvRowsPages(d: Dataset, generated: string)
    ensures var rows := RowTexts(CsvRows(d, generated));
      |rows| == 7 + |d.results| && rows[4] == ["Total Pages", IntToString(d.metadata.totalPages), "", "", ""]
  {
    var cells := CsvRows(d, generated);
    var pages := IntToString(d.metadata.totalPages);
    assert cells[4] == Padded("Total Pages", pages);
    HeadRow(cells, 4, "Total Pages", pages);
  }

  /** Rows 5 and 6: the queries and the blank separator. */
  lemma CsvRowsQueries(d: Dataset, generated: string)
    ensures var rows := RowTexts(CsvRows(d, generated));
      |rows| == 7 + |d.results|
      && rows[5] == ["Queries", Join(d.metadata.queries, " | "), "", "", ""]
      && rows[6] == ["", "", "", "", ""]
  {
    var cells := CsvRows(d, generated);
    var queries := Join(d.metadata.queries, " | ");
    assert cells[5] == Padded("Queries", queries);
    HeadRow(cells, 5, "Queries", queries);
    assert cells[6] == Padded([], []);
    HeadRow(cells, 6, [], []);
  }

  lemma HeadRow(cells: seq<Row>, k: nat, name: string, value: string)
    requires k < |cells| && cells[k] == Padded(name, value)
    ensures RowTexts(cells)[k] == [name, value, "", "", ""]
  {
    PaddedText(name, value);
  }

  lemma CsvRowsBody(d: Dataset, generated: string)
    ensures var rows := RowTexts(CsvRows(d, generated));
      |rows| == 7 + |d.results|
      && (forall k :: 0 <= k < |d.results| ==> rows[7 + k] == RowText(d.results[k]))
  {
    var cells := CsvRows(d, generated);
    forall k | 0 <= k < |d.results| ensures RowTexts(cells)[7 + k] == RowText(d.results[k]) {
      assert cells[7 + k] == d.results[k];
    }
  }

  /** The "Total Results" and "Total Pages" cells read back as the numbers they render. */
  lemma CsvTotalsReadBack(d: Dataset, generated: string)
    requires |d.results| >= 1 && d.metadata.totalPages >= 0
    ensures var rows := RowTexts(CsvRows(d, generated));
      Numeral(rows[3][1]) && DecimalValue(rows[3][1]) == |d.results| - 1
      && Numeral(rows[4][1]) && DecimalValue(rows[4][1]) == d.metadata.totalPages
  {
    CsvRowsTotals(d, generated);
  }

  lemma PaddedText(name: string, value: string)
    ensures RowText(Padded(name, value)) == [name, value, "", "", ""]
  {
  }

  /** `iso.split('T')[0]`: everything before the first 'T'. */
  function DatePart(iso: string): (r: string)
    ensures r <= iso && 'T' !in r
    ensures |r| < |iso| ==> iso[|r|] == 'T'
  {
    if iso == [] || iso[0] == 'T' then [] else [iso[0]] + DatePart(iso[1..])
  }

  /** `google_results_<date>.csv`. */
  function FileName(now: string): string {
    "google_results_" + DatePart(now) + ".csv"
  }

  /** A CSV file handed to the browser's download machinery. */
  datatype Download = Download(content: string, filename: string)

  /**
   * The download `downloadCSV` starts for a dataset: none when only the
   * header (or nothing) is stored, otherwise the document and its file name.
   */
  function DownloadOf(d: Dataset, now: string): (r: Option<Download>)
    ensures r == None <==> |d.results| <= 1
    ensures r != None ==> ParseCsv(r.value.content) == Some(RowTexts(CsvRows(d, now)))
  {
    if |d.results| <= 1 then None
    else
      ParseEncodeLines(RowTexts(CsvRows(d, now)));
      Some(Download(CsvDocument(d, now), FileName(now)))
  }
}
