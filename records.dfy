/**
 * The persisted dataset of the collector and the merge of one results page
 * into it (`processResults` of the content script, without its I/O).
 *
 * The dataset is `{metadata: {queries, totalPages, collectionStarted}, results}`
 * where `results[0]` is a header row and every other row is
 * `[title, link, description, page, timestamp]`.
 */
module Records {
  import opened Wrappers
  import opened Text
  import TextProperties

  /** A stored cell: rows hold strings and, in column 3, the page number. */
  datatype Cell = Str(s: string) | Num(n: int)

  type Row = seq<Cell>

  datatype Metadata = Metadata(queries: seq<string>, totalPages: int, collectionStarted: Option<string>)

  datatype Dataset = Dataset(metadata: Metadata, results: seq<Row>)

  const Header: Row := [Str("title"), Str("link"), Str("description"), Str("page"), Str("timestamp")]

  /** The shape both scripts use when nothing is stored under the dataset key. */
  const EmptyDataset: Dataset := Dataset(Metadata([], 0, None), [Header])

  const NoTitle: string := "no title"
  const NoLink: string := "no link"
  const NoDescription: string := "no description"

  /**
   * `getStoredResults`: the stored document, or the empty shape when the key
   * is absent or the read fails.
   */
  function StoredOrEmpty(stored: Option<Dataset>, readFails: bool): (d: Dataset)
    ensures readFails || stored == None ==> d == EmptyDataset
    ensures !readFails && stored != None ==> d == stored.value
  {
    if readFails then EmptyDataset else stored.GetOr(EmptyDataset)
  }

  /**
   * One result container as the page shows it: the text of its heading, the
   * href of its first anchor and the text of its snippet, each None when the
   * element is missing.
   */
  datatype Candidate = Candidate(title: Option<string>, link: Option<string>, description: Option<string>)

  /** `clean(value || placeholder)`: a missing or empty value takes the placeholder. */
  function FieldText(raw: Option<string>, placeholder: string): (r: string)
    ensures IsClean(r)
    ensures raw != None && raw != Some([]) ==> r == Clean(raw)
    ensures raw == None || raw == Some([]) ==> r == Clean(Some(placeholder))
    ensures (raw == None || raw == Some([])) && IsClean(placeholder) ==> r == placeholder
  {
    if raw == None || raw == Some([]) then
      if IsClean(placeholder) then
        TextProperties.CleanFixesCleanText(placeholder);
        Clean(Some(placeholder))
      else Clean(Some(placeholder))
    else Clean(raw)
  }

  /** The three placeholders are already clean, so `clean` keeps them as they are. */
  lemma PlaceholdersClean()
    ensures IsClean(NoTitle) && IsClean(NoLink) && IsClean(NoDescription)
  {
    NoTitleClean();
    NoLinkClean();
    NoDescriptionClean();
  }

  lemma NoTitleClean()
    ensures IsClean(NoTitle)
  {
    TwoWordsClean("no", "title");
    assert "no" + " " + "title" == NoTitle;
  }

  lemma NoLinkClean()
    ensures IsClean(NoLink)
  {
    TwoWordsClean("no", "link");
    assert "no" + " " + "link" == NoLink;
  }

  lemma NoDescriptionClean()
    ensures IsClean(NoDescription)
  {
    TwoWordsClean("no", "description");
    assert "no" + " " + "description" == NoDescription;
  }

  /** Lower-case ASCII letters only. */
  predicate Letters(s: string) {
    forall i :: 0 <= i < |s| ==> 'a' <= s[i] <= 'z'
  }

  /** Two words of letters joined by one space form a clean string. */
  lemma TwoWordsClean(x: string, y: string)
    requires x != [] && y != [] && Letters(x) && Letters(y)
    ensures IsClean(x + " " + y)
  {
    var s := x + " " + y;
    forall i | 0 <= i < |s| ensures s[i] == ' ' <==> i == |x|
      ensures i != |x| ==> 'a' <= s[i] <= 'z'
    {
      if i > |x| {
        assert s[i] == y[i - |x| - 1];
      }
    }
  }

  /** The cleaned title, link and description of one result container. */
  datatype Fields = Fields(title: string, link: string, description: string)

  /** Lines 119-121 of the loop body: default each missing field, then clean it. */
  function Extract(c: Candidate): (f: Fields)
    ensures IsClean(f.title) && IsClean(f.link) && IsClean(f.description)
    ensures f.title == if c.title == None || c.title == Some([]) then NoTitle else Clean(c.title)
    ensures f.link == if c.link == None || c.link == Some([]) then NoLink else Clean(c.link)
    ensures f.description == if c.description == None || c.description == Some([]) then NoDescription
                             else Clean(c.description)
  {
    PlaceholdersClean();
    Fields(FieldText(c.title, NoTitle), FieldText(c.link, NoLink), FieldText(c.description, NoDescription))
  }

  /** The candidates' fields, in page order. */
  function ExtractAll(cands: seq<Candidate>): (fs: seq<Fields>)
    ensures |fs| == |cands|
    ensures forall i :: 0 <= i < |cands| ==> fs[i] == Extract(cands[i])
  {
    seq(|cands|, i requires 0 <= i < |cands| => Extract(cands[i]))
  }

  /** The row `[title, link, description, page, timestamp]` pushed for an accepted candidate. */
  function NewRow(f: Fields, page: int, timestamp: string): Row {
    [Str(f.title), Str(f.link), Str(f.description), Num(page), Str(timestamp)]
  }

  /** Column 1 of a row, when it exists and is a string (`row[1]` compared with `===`). */
  function LinkKey(row: Row): Option<string> {
    if |row| > 1 && row[1].Str? then Some(row[1].s) else None
  }

  /** `rows.some(row => row[1] === link)`. */
  function HasLink(rows: seq<Row>, link: string): (b: bool)
    ensures b <==> exists j :: 0 <= j < |rows| && LinkKey(rows[j]) == Some(link)
  {
    if rows == [] then false
    else LinkKey(rows[0]) == Some(link) || HasLink(rows[1..], link)
  }

  /** The test of one loop iteration: the cleaned link is new and is not the placeholder. */
  predicate Accepts(rows: seq<Row>, f: Fields) {
    !HasLink(rows, f.link) && f.link != NoLink
  }

  /** One iteration of the `forEach` over the result containers. */
  function Step(rows: seq<Row>, f: Fields, page: int, timestamp: string): (r: seq<Row>)
    ensures rows <= r && |r| <= |rows| + 1
    ensures |r| > |rows| <==> !HasLink(rows, f.link) && f.link != NoLink
    ensures |r| > |rows| ==> r[|rows|] == NewRow(f, page, timestamp)
    ensures f.link != NoLink ==> HasLink(r, f.link)
  {
    if Accepts(rows, f) then
      var r := rows + [NewRow(f, page, timestamp)];
      assert LinkKey(r[|rows|]) == Some(f.link);
      r
    else rows
  }

  /** The rows after the `forEach` has visited every candidate, in page order. */
  function MergeRows(rows: seq<Row>, fs: seq<Fields>, page: int, timestamp: string): (r: seq<Row>)
    ensures rows <= r && |r| <= |rows| + |fs|
    decreases |fs|
  {
    if fs == [] then rows
    else Step(MergeRows(rows, fs[..|fs| - 1], page, timestamp), fs[|fs| - 1], page, timestamp)
  }

  /** JavaScript truthiness of `collectionStarted`: set and not the empty string. */
  predicate Started(started: Option<string>) {
    started != None && started != Some([])
  }

  predicate NoDuplicates(qs: seq<string>) {
    forall i, j :: 0 <= i < j < |qs| ==> qs[i] != qs[j]
  }

  /**
   * The metadata update that precedes the row loop: record the query, raise
   * `totalPages` to the page, and stamp `collectionStarted` if it is unset
   * (this happens before, and regardless of, any row being added).
   */
  function MergeMetadata(m: Metadata, query: string, page: int, timestamp: string): (r: Metadata)
    ensures query in r.queries
    ensures r.queries == m.queries || (query !in m.queries && r.queries == m.queries + [query])
    ensures NoDuplicates(m.queries) ==> NoDuplicates(r.queries)
    ensures r.totalPages >= m.totalPages && r.totalPages >= page
    ensures r.totalPages == m.totalPages || r.totalPages == page
    ensures Started(m.collectionStarted) ==> r.collectionStarted == m.collectionStarted
    ensures !Started(m.collectionStarted) ==> r.collectionStarted == Some(timestamp)
  {
    Metadata(
      if query in m.queries then m.queries else m.queries + [query],
      if m.totalPages >= page then m.totalPages else page,
      if Started(m.collectionStarted) then m.collectionStarted else Some(timestamp))
  }

  /** The dataset `processResults` saves, given the query, page and time of this page. */
  function Merge(d: Dataset, cands: seq<Candidate>, query: string, page: int, timestamp: string): Dataset {
    Dataset(MergeMetadata(d.metadata, query, page, timestamp),
            MergeRows(d.results, ExtractAll(cands), page, timestamp))
  }

  /** No two rows share a string in column 1. */
  predicate LinksUnique(rows: seq<Row>) {
    forall i, j :: 0 <= i < j < |rows| && LinkKey(rows[i]) != None ==> LinkKey(rows[i]) != LinkKey(rows[j])
  }

  /** The invariant the collector keeps on the stored dataset. */
  predicate WellFormed(d: Dataset) {
    |d.results| > 0 && d.results[0] == Header && LinksUnique(d.results) && NoDuplicates(d.metadata.queries)
  }

  /** The default shape is well formed, holds the header alone and has no start time. */
  lemma EmptyDatasetWellFormed()
    ensures WellFormed(EmptyDataset) && |EmptyDataset.results| == 1
    ensures LinkKey(Header) == Some("link") && !Started(EmptyDataset.metadata.collectionStarted)
  {
  }
}
