/**
 * The content script: its two global flags, the guarded merge of the current
 * results page into the stored dataset, and the entry points that drive it.
 * The DOM is given as the sequence of result containers, the clock as a
 * timestamp, and storage failures as one flag per storage call.
 */
module ContentScript {
  import opened Wrappers
  import opened Text
  import opened PageContext
  import opened Records
  import opened Export
  import opened Browser
  import MergeProperties

  /** The parts of `window.location` the script reads: the address and its `q` and `start` parameters. */
  datatype Location = Location(href: string, q: Option<string>, start: Option<int>)

  /** Which storage calls of one invocation fail (throw or reject). */
  datatype StorageFaults = StorageFaults(statusReadFails: bool, dataReadFails: bool, dataWriteFails: bool)

  /** The dataset one unguarded run of `processResults` builds. */
  function Merged(stored: Option<Dataset>, loc: Location, cands: seq<Candidate>, timestamp: string,
                  faults: StorageFaults): Dataset
  {
    Merge(StoredOrEmpty(stored, faults.dataReadFails), cands, SearchQuery(loc.q), PageNumber(loc.start), timestamp)
  }

  /** What is stored under the dataset key after that run: unchanged when the write fails. */
  function StoredAfterMerge(stored: Option<Dataset>, loc: Location, cands: seq<Candidate>, timestamp: string,
                            faults: StorageFaults): Option<Dataset>
  {
    if faults.dataWriteFails then stored else Some(Merged(stored, loc, cands, timestamp, faults))
  }

  /** The local flag after `checkCollectionStatus`: the stored flag (absent reads as false), untouched when the read fails. */
  function StatusAfterCheck(current: bool, stored: Option<bool>, readFails: bool): bool {
    if readFails then current else stored.GetOr(false)
  }

  /** One more result container extends the merge by one `Step`. */
  lemma MergeRowsExtend(rows: seq<Row>, cands: seq<Candidate>, i: nat, page: int, timestamp: string)
    requires i < |cands|
    ensures MergeRows(rows, ExtractAll(cands[..i + 1]), page, timestamp)
         == Step(MergeRows(rows, ExtractAll(cands[..i]), page, timestamp), Extract(cands[i]), page, timestamp)
  {
    var fs := ExtractAll(cands[..i + 1]);
    assert cands[..i + 1][..i] == cands[..i];
    assert fs[..|fs| - 1] == ExtractAll(cands[..i]);
  }

  /** A stored dataset the collector has only ever merged into stays well formed. */
  lemma StoredAfterMergeKeepsWellFormed(stored: Option<Dataset>, loc: Location, cands: seq<Candidate>,
                                        timestamp: string, faults: StorageFaults)
    requires stored == None || WellFormed(stored.value)
    ensures var after := StoredAfterMerge(stored, loc, cands, timestamp, faults);
      after == None || WellFormed(after.value)
  {
    var data := StoredOrEmpty(stored, faults.dataReadFails);
    assert WellFormed(EmptyDataset);
    MergeProperties.MergeKeepsWellFormed(data, cands, SearchQuery(loc.q), PageNumber(loc.start), timestamp);
  }

  /**
   * Processing the same page again, at any later time, adds no rows (so the
   * second run returns 0); with a non-empty first timestamp it leaves the
   * stored dataset exactly as the first run left it.
   */
  lemma ReplayAddsNothing(stored: Option<Dataset>, loc: Location, cands: seq<Candidate>,
                          timestamp: string, timestamp': string, faults: StorageFaults)
    requires !faults.dataReadFails && !faults.dataWriteFails
    ensures var after := StoredAfterMerge(stored, loc, cands, timestamp, faults);
      Merged(after, loc, cands, timestamp', faults).results == StoredOrEmpty(after, faults.dataReadFails).results
    ensures var after := StoredAfterMerge(stored, loc, cands, timestamp, faults);
      timestamp != [] ==> StoredAfterMerge(after, loc, cands, timestamp', faults) == after
  {
    var d := StoredOrEmpty(stored, faults.dataReadFails);
    MergeProperties.MergeIdempotent(d, cands, SearchQuery(loc.q), PageNumber(loc.start), timestamp, timestamp');
  }

  class Collector {
    /** The re-entrancy guard of `processResults`. */
    var isProcessing: bool
    /** The script's copy of the active flag. */
    var isCollectionActive: bool
    const store: Store

    constructor (store: Store)
      ensures this.store == store && !isProcessing && !isCollectionActive
    {
      this.store := store;
      isProcessing := false;
      isCollectionActive := false;
    }

    /** `checkCollectionStatus`: copy the stored flag into the local one and return it; false on a failed read. */
    method CheckCollectionStatus(faults: StorageFaults) returns (active: bool)
      modifies this
      ensures isCollectionActive == StatusAfterCheck(old(isCollectionActive), store.active, faults.statusReadFails)
      ensures active == (!faults.statusReadFails && isCollectionActive)
      ensures isProcessing == old(isProcessing)
    {
      if faults.statusReadFails {
        return false;
      }
      isCollectionActive := store.active.GetOr(false);
      active := isCollectionActive;
    }

    /** `saveResults`: a failed write is logged and ignored. */
    method SaveResults(data: Dataset, writeFails: bool)
      modifies store
      ensures store.dataset == if writeFails then old(store.dataset) else Some(data)
      ensures store.active == old(store.active)
    {
      if !writeFails {
        store.SetDataset(data);
      }
    }

    /**
     * `processResults`: does nothing while another run is in flight or while
     * collection is off; otherwise merges the page, saves, and returns the
     * number of rows added.
     */
    method ProcessResults(loc: Location, cands: seq<Candidate>, timestamp: string, faults: StorageFaults)
      returns (newCount: nat)
      modifies this, store
      ensures isProcessing == old(isProcessing) && isCollectionActive == old(isCollectionActive)
      ensures store.active == old(store.active)
      ensures old(isProcessing) || !old(isCollectionActive) ==> newCount == 0 && store.dataset == old(store.dataset)
      ensures !old(isProcessing) && old(isCollectionActive) ==>
        !isProcessing
        && store.dataset == StoredAfterMerge(old(store.dataset), loc, cands, timestamp, faults)
        && newCount == |Merged(old(store.dataset), loc, cands, timestamp, faults).results|
                       - |StoredOrEmpty(old(store.dataset), faults.dataReadFails).results|
    {
      if isProcessing || !isCollectionActive {
        return 0;
      }
      SetProcessing(true);
      newCount := MergeAndSave(loc, cands, timestamp, faults);
      SetProcessing(false);
    }

    /** The `try` block of `processResults`: merge the page into the stored dataset and save it. */
    method MergeAndSave(loc: Location, cands: seq<Candidate>, timestamp: string, faults: StorageFaults)
      returns (newCount: nat)
      modifies store
      ensures store.active == old(store.active)
      ensures store.dataset == StoredAfterMerge(old(store.dataset), loc, cands, timestamp, faults)
      ensures newCount == |Merged(old(store.dataset), loc, cands, timestamp, faults).results|
                          - |StoredOrEmpty(old(store.dataset), faults.dataReadFails).results|
    {
      var merged;
      merged, newCount := MergePage(store.dataset, loc, cands, timestamp, faults);
      SaveResults(merged, faults.dataWriteFails);
    }

    /** The writes of the re-entrancy guard: set before the merge, cleared in `finally`. */
    method SetProcessing(on: bool)
      modifies this
      ensures isProcessing == on && isCollectionActive == old(isCollectionActive)
    {
      isProcessing := on;
    }

    /**
     * The body of `processResults` up to the save: read the stored dataset,
     * record the query, raise the page count, set the start time if unset,
     * then append the page's new rows.
     */
    static method MergePage(stored: Option<Dataset>, loc: Location, cands: seq<Candidate>, timestamp: string,
                            faults: StorageFaults)
      returns (merged: Dataset, newCount: nat)
      ensures merged == Merged(stored, loc, cands, timestamp, faults)
      ensures newCount == |merged.results| - |StoredOrEmpty(stored, faults.dataReadFails).results|
    {
      var data := StoredOrEmpty(stored, faults.dataReadFails);
      var query := SearchQuery(loc.q);
      var page := PageNumber(loc.start);
      var queries := data.metadata.queries;
      if query !in queries {
        queries := queries + [query];
      }
      var totalPages := if data.metadata.totalPages >= page then data.metadata.totalPages else page;
      var started := data.metadata.collectionStarted;
      if !Started(started) {
        started := Some(timestamp);
      }
      var rows;
      rows, newCount := AppendRows(data.results, cands, page, timestamp);
      merged := Dataset(Metadata(queries, totalPages, started), rows);
    }

    /**
     * The loop of `processResults` over the result containers: adds a row
     * for each candidate whose link is real and not yet stored, and counts them.
     */
    static method AppendRows(rows0: seq<Row>, cands: seq<Candidate>, page: int, timestamp: string)
      returns (rows: seq<Row>, newCount: nat)
      ensures rows == MergeRows(rows0, ExtractAll(cands), page, timestamp)
      ensures newCount == |rows| - |rows0|
    {
      rows := rows0;
      newCount := 0;
      var i := 0;
      while i < |cands|
        invariant 0 <= i <= |cands|
        invariant rows == MergeRows(rows0, ExtractAll(cands[..i]), page, timestamp)
        invariant newCount == |rows| - |rows0|
      {
        var f := Extract(cands[i]);
        MergeRowsExtend(rows0, cands, i, page, timestamp);
        var known := HasLink(rows, f.link);
        if !known && f.link != NoLink {
          rows := rows + [NewRow(f, page, timestamp)];
          newCount := newCount + 1;
        }
        i := i + 1;
      }
      assert cands[..|cands|] == cands;
    }

    /** `main`: on a search page, refresh the local flag from storage and, if it is on, process the page. */
    method RunMain(loc: Location, cands: seq<Candidate>, timestamp: string, faults: StorageFaults)
      modifies this, store
      ensures isProcessing == old(isProcessing) && store.active == old(store.active)
      ensures !Contains(loc.href, "/search") ==>
        isCollectionActive == old(isCollectionActive) && store.dataset == old(store.dataset)
      ensures Contains(loc.href, "/search") ==>
        isCollectionActive == StatusAfterCheck(old(isCollectionActive), old(store.active), faults.statusReadFails)
      ensures store.dataset ==
        if Contains(loc.href, "/search") && isCollectionActive && !old(isProcessing)
        then StoredAfterMerge(old(store.dataset), loc, cands, timestamp, faults)
        else old(store.dataset)
    {
      if !Contains(loc.href, "/search") {
        return;
      }
      var _ := CheckCollectionStatus(faults);
      if !isCollectionActive {
        return;
      }
      var _ := ProcessResults(loc, cands, timestamp, faults);
    }

    /** `startCollection`: switch the local flag on, then run `main` (which re-reads the stored flag). */
    method StartCollection(loc: Location, cands: seq<Candidate>, timestamp: string, faults: StorageFaults)
      modifies this, store
      ensures isProcessing == old(isProcessing) && store.active == old(store.active)
      ensures !Contains(loc.href, "/search") ==> isCollectionActive && store.dataset == old(store.dataset)
      ensures Contains(loc.href, "/search") ==>
        isCollectionActive == StatusAfterCheck(true, old(store.active), faults.statusReadFails)
      ensures store.dataset ==
        if Contains(loc.href, "/search") && isCollectionActive && !old(isProcessing)
        then StoredAfterMerge(old(store.dataset), loc, cands, timestamp, faults)
        else old(store.dataset)
    {
      isCollectionActive := true;
      RunMain(loc, cands, timestamp, faults);
    }

    /** `stopCollection`. */
    method StopCollection()
      modifies this
      ensures !isCollectionActive && isProcessing == old(isProcessing)
    {
      isCollectionActive := false;
    }

    /** The `runtime.onMessage` listener: 'start' and 'stop' commands from the popup. */
    method OnMessage(command: Command, loc: Location, cands: seq<Candidate>, timestamp: string, faults: StorageFaults)
      modifies this, store
      ensures isProcessing == old(isProcessing) && store.active == old(store.active)
      ensures command == Stop ==> !isCollectionActive && store.dataset == old(store.dataset)
      ensures command == Start ==>
        isCollectionActive == (!Contains(loc.href, "/search") || StatusAfterCheck(true, old(store.active), faults.statusReadFails))
        && store.dataset ==
          if Contains(loc.href, "/search") && isCollectionActive && !old(isProcessing)
          then StoredAfterMerge(old(store.dataset), loc, cands, timestamp, faults)
          else old(store.dataset)
    {
      match command
      case Start => StartCollection(loc, cands, timestamp, faults);
      case Stop => StopCollection();
    }

    /** The content script's `downloadCSV`: the file it would download; nothing is cleared. */
    method DownloadCsv(now: string, faults: StorageFaults) returns (download: Option<Download>)
      ensures download == DownloadOf(StoredOrEmpty(store.dataset, faults.dataReadFails), now)
      ensures download == None <==> |StoredOrEmpty(store.dataset, faults.dataReadFails).results| <= 1
    {
      var data := StoredOrEmpty(store.dataset, faults.dataReadFails);
      if |data.results| <= 1 {
        return None;
      }
      download := Some(Download(CsvDocument(data, now), FileName(now)));
    }

    /** `clearResults`: remove the dataset key; a rejected removal is logged and leaves it. */
    method ClearResults(removeFails: bool)
      modifies store
      ensures store.dataset == (if removeFails then old(store.dataset) else None)
      ensures store.active == old(store.active)
    {
      if !removeFails {
        store.RemoveDataset();
      }
    }
  }
}
