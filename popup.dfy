/**
 * The popup: its copies of the active flag and of the result count, the
 * start/stop toggle that tells the page and exports on stop, and its own CSV
 * export, which clears the stored dataset. The popup's storage calls are taken
 * to succeed; the active tab's address is a parameter.
 */
module Popup {
  import opened Wrappers
  import opened PageContext
  import opened Records
  import opened Export
  import opened Browser

  /** The command a toggle sends to the tab, if its address is a Google search page. */
  function MessageFor(tabUrl: Option<string>, nowActive: bool): (m: Option<Command>)
    ensures m != None <==> tabUrl != None && Contains(tabUrl.value, "google.com/search")
    ensures m == Some(Start) ==> nowActive
    ensures m == Some(Stop) ==> !nowActive
  {
    if tabUrl != None && Contains(tabUrl.value, "google.com/search")
    then Some(if nowActive then Start else Stop)
    else None
  }

  class Popup {
    var isActive: bool
    var totalResults: int
    const store: Store

    constructor (store: Store)
      ensures this.store == store && !isActive && totalResults == 0
    {
      this.store := store;
      isActive := false;
      totalResults := 0;
    }

    /** `updateStatus`: read the stored flag; absent reads as off. */
    method UpdateStatus()
      modifies this
      ensures isActive == store.active.GetOr(false) && totalResults == old(totalResults)
    {
      isActive := store.active.GetOr(false);
    }

    /** `updateStats`: the number of stored rows, not counting the header. */
    method UpdateStats()
      modifies this
      ensures totalResults == |StoredOrEmpty(store.dataset, false).results| - 1
      ensures isActive == old(isActive)
    {
      var data := StoredOrEmpty(store.dataset, false);
      totalResults := |data.results| - 1;
    }

    /** `init`: read the flag, then the count. */
    method Init()
      modifies this
      ensures isActive == store.active.GetOr(false)
      ensures totalResults == |StoredOrEmpty(store.dataset, false).results| - 1
      ensures store.dataset == None || WellFormed(store.dataset.value) ==> totalResults >= 0
    {
      UpdateStatus();
      UpdateStats();
    }

    /** The `storage.onChanged` listener: refresh only for a local change to one of the two keys. */
    method OnStorageChanged(local: bool, datasetChanged: bool, activeChanged: bool)
      modifies this
      ensures local && (datasetChanged || activeChanged) ==>
        isActive == store.active.GetOr(false)
        && totalResults == |StoredOrEmpty(store.dataset, false).results| - 1
      ensures !(local && (datasetChanged || activeChanged)) ==>
        isActive == old(isActive) && totalResults == old(totalResults)
    {
      if local && (datasetChanged || activeChanged) {
        UpdateStatus();
        UpdateStats();
      }
    }

    /**
     * The popup's `downloadCSV`: with no data rows nothing happens; otherwise
     * the file is produced, the dataset key is removed and the count drops to zero.
     */
    method DownloadCsv(now: string) returns (download: Option<Download>)
      modifies this, store
      ensures download == DownloadOf(StoredOrEmpty(old(store.dataset), false), now)
      ensures download == None ==> store.dataset == old(store.dataset) && totalResults == old(totalResults)
      ensures download != None ==> store.dataset == None && totalResults == 0
      ensures store.active == old(store.active) && isActive == old(isActive)
    {
      var data := StoredOrEmpty(store.dataset, false);
      if |data.results| <= 1 {
        return None;
      }
      download := Some(Download(CsvDocument(data, now), FileName(now)));
      store.RemoveDataset();
      UpdateStats();
    }

    /**
     * `toggleCollection`: flip and store the flag, tell a Google search tab,
     * and on a stop with results export them. `exported` is None when no
     * export was attempted.
     */
    method ToggleCollection(tabUrl: Option<string>, now: string)
      returns (sent: Option<Command>, exported: Option<Option<Download>>)
      modifies this, store
      ensures isActive == !old(isActive) && store.active == Some(isActive)
      ensures sent == MessageFor(tabUrl, isActive)
      ensures exported != None <==> old(isActive) && old(totalResults) > 0
      ensures exported != None ==>
        exported.value == DownloadOf(StoredOrEmpty(old(store.dataset), false), now)
        && (exported.value != None ==> store.dataset == None && totalResults == 0)
      ensures (exported == None || exported.value == None) ==>
        store.dataset == old(store.dataset) && totalResults == old(totalResults)
    {
      var wasActive := isActive;
      isActive := !isActive;
      store.SetActive(isActive);
      sent := MessageFor(tabUrl, isActive);
      UpdateStatus();
      exported := None;
      if !isActive && wasActive && totalResults > 0 {
        var download := DownloadCsv(now);
        exported := Some(download);
      }
    }
  }
}
