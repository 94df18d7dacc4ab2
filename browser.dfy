/**
 * What the browser gives both scripts: the extension's local storage and the
 * command the popup sends to the content script of the active tab.
 */
module Browser {
  import opened Wrappers
  import opened Records

  /**
   * `chrome.storage.local` as the scripts use it: the dataset under the key
   * `google_search_results` and the active flag under `google_collector_active`.
   * None stands for an absent key.
   */
  class Store {
    var dataset: Option<Dataset>
    var active: Option<bool>

    constructor ()
      ensures dataset == None && active == None
    {
      dataset := None;
      active := None;
    }

    /** `set` of the dataset key. */
    method SetDataset(d: Dataset)
      modifies this
      ensures dataset == Some(d) && active == old(active)
    {
      dataset := Some(d);
    }

    /** `remove` of the dataset key. */
    method RemoveDataset()
      modifies this
      ensures dataset == None && active == old(active)
    {
      dataset := None;
    }

    /** `set` of the active key. */
    method SetActive(on: bool)
      modifies this
      ensures active == Some(on) && dataset == old(dataset)
    {
      active := Some(on);
    }
  }

  /** The `action` of a message from the popup. */
  datatype Command = Start | Stop
}
