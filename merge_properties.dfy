/** What a merge promises: append-only rows, link dedup, and idempotence. */
module MergeProperties {
  import opened Wrappers
  import opened Text
  import opened Records

  /**
   * The merge only appends. Every appended row was built from one of the
   * candidates with this call's page and timestamp, its link is not the
   * placeholder, and it does not repeat the link of any row that was there before.
   */
  lemma {:induction false} MergeRowsAppends(rows: seq<Row>, fs: seq<Fields>, page: int, timestamp: string)
    ensures rows <= MergeRows(rows, fs, page, timestamp)
    ensures |MergeRows(rows, fs, page, timestamp)| <= |rows| + |fs|
    ensures forall k :: |rows| <= k < |MergeRows(rows, fs, page, timestamp)| ==>
      (exists c :: c in fs && MergeRows(rows, fs, page, timestamp)[k] == NewRow(c, page, timestamp))
    ensures forall k :: |rows| <= k < |MergeRows(rows, fs, page, timestamp)| ==>
      LinkKey(MergeRows(rows, fs, page, timestamp)[k]) != Some(NoLink)
    ensures forall j, k :: 0 <= j < |rows| <= k < |MergeRows(rows, fs, page, timestamp)| ==>
      LinkKey(MergeRows(rows, fs, page, timestamp)[k]) != LinkKey(rows[j])
    decreases |fs|
  {
    if fs != [] {
      var init, last := fs[..|fs| - 1], fs[|fs| - 1];
      var mid := MergeRows(rows, init, page, timestamp);
      MergeRowsAppends(rows, init, page, timestamp);
      assert forall c :: c in init ==> c in fs;
      if Accepts(mid, last) {
        var row := NewRow(last, page, timestamp);
        assert MergeRows(rows, fs, page, timestamp) == mid + [row];
        assert LinkKey(row) == Some(last.link);
        forall j | 0 <= j < |rows| ensures LinkKey(row) != LinkKey(rows[j]) {
          assert rows[j] == mid[j];
        }
      }
    }
  }

  /** Dedup: a merge never makes two rows share a link, even among one page's candidates. */
  lemma {:induction false} MergeRowsKeepsLinksUnique(rows: seq<Row>, fs: seq<Fields>, page: int, timestamp: string)
    requires LinksUnique(rows)
    ensures LinksUnique(MergeRows(rows, fs, page, timestamp))
    decreases |fs|
  {
    if fs != [] {
      var init, last := fs[..|fs| - 1], fs[|fs| - 1];
      var mid := MergeRows(rows, init, page, timestamp);
      MergeRowsKeepsLinksUnique(rows, init, page, timestamp);
      if Accepts(mid, last) {
        var r := mid + [NewRow(last, page, timestamp)];
        assert LinkKey(r[|mid|]) == Some(last.link);
        forall i, j | 0 <= i < j < |r| && LinkKey(r[i]) != None ensures LinkKey(r[i]) != LinkKey(r[j]) {
          if j == |mid| {
            assert r[i] == mid[i];
          } else {
            assert r[i] == mid[i] && r[j] == mid[j];
          }
        }
      }
    }
  }

  /** After a merge, every candidate's link is stored, unless it is the placeholder. */
  lemma {:induction false} MergeRowsCovers(rows: seq<Row>, fs: seq<Fields>, page: int, timestamp: string)
    ensures forall c :: c in fs ==>
      c.link == NoLink || HasLink(MergeRows(rows, fs, page, timestamp), c.link)
    decreases |fs|
  {
    if fs != [] {
      var init, last := fs[..|fs| - 1], fs[|fs| - 1];
      var mid := MergeRows(rows, init, page, timestamp);
      MergeRowsCovers(rows, init, page, timestamp);
      var r := MergeRows(rows, fs, page, timestamp);
      MergeRowsAppends(mid, [last], page, timestamp);
      assert [last][..0] == [];
      assert r == Step(mid, last, page, timestamp);
      assert mid <= r;
      forall c | c in fs && c.link != NoLink ensures HasLink(r, c.link) {
        if c in init {
          var j :| 0 <= j < |mid| && LinkKey(mid[j]) == Some(c.link);
          assert r[j] == mid[j];
        } else {
          assert c == last;
          if Accepts(mid, last) {
            assert LinkKey(r[|mid|]) == Some(last.link);
          }
        }
      }
    }
  }

  /** A merge whose candidates are all already stored (or placeholders) adds nothing. */
  lemma {:induction false} MergeRowsOfCoveredIsNoop(rows: seq<Row>, fs: seq<Fields>, page: int, timestamp: string)
    requires forall c :: c in fs ==> c.link == NoLink || HasLink(rows, c.link)
    ensures MergeRows(rows, fs, page, timestamp) == rows
    decreases |fs|
  {
    if fs != [] {
      var init := fs[..|fs| - 1];
      assert forall c :: c in init ==> c in fs;
      MergeRowsOfCoveredIsNoop(rows, init, page, timestamp);
      assert fs[|fs| - 1] in fs;
    }
  }

  /** Re-running a merge with the same candidates adds nothing, whatever the page and time. */
  lemma MergeRowsIdempotent(rows: seq<Row>, fs: seq<Fields>, page: int, timestamp: string,
                            page': int, timestamp': string)
    ensures MergeRows(MergeRows(rows, fs, page, timestamp), fs, page', timestamp')
         == MergeRows(rows, fs, page, timestamp)
  {
    MergeRowsCovers(rows, fs, page, timestamp);
    MergeRowsOfCoveredIsNoop(MergeRows(rows, fs, page, timestamp), fs, page', timestamp');
  }

  /**
   * Merging the same page again leaves the whole dataset as it was, provided the
   * first timestamp is not the empty string (an empty one does not count as set).
   */
  lemma MergeIdempotent(d: Dataset, cands: seq<Candidate>, query: string, page: int,
                        timestamp: string, timestamp': string)
    ensures Merge(Merge(d, cands, query, page, timestamp), cands, query, page, timestamp').results
         == Merge(d, cands, query, page, timestamp).results
    ensures timestamp != [] ==>
      Merge(Merge(d, cands, query, page, timestamp), cands, query, page, timestamp')
      == Merge(d, cands, query, page, timestamp)
  {
    MergeRowsIdempotent(d.results, ExtractAll(cands), page, timestamp, page, timestamp');
  }

  /** A merge keeps the stored dataset well formed. */
  lemma MergeKeepsWellFormed(d: Dataset, cands: seq<Candidate>, query: string, page: int, timestamp: string)
    requires WellFormed(d)
    ensures WellFormed(Merge(d, cands, query, page, timestamp))
  {
    MergeRowsAppends(d.results, ExtractAll(cands), page, timestamp);
    MergeRowsKeepsLinksUnique(d.results, ExtractAll(cands), page, timestamp);
  }

  /**
   * Because the header's column 1 is the literal "link", a candidate whose
   * cleaned link is "link" is never appended to a header-led dataset.
   */
  lemma HeaderTakesPartInDedup(rows: seq<Row>, fs: seq<Fields>, page: int, timestamp: string)
    requires |rows| > 0 && rows[0] == Header
    ensures forall k :: |rows| <= k < |MergeRows(rows, fs, page, timestamp)| ==>
      LinkKey(MergeRows(rows, fs, page, timestamp)[k]) != Some("link")
  {
    MergeRowsAppends(rows, fs, page, timestamp);
    assert LinkKey(rows[0]) == Some("link");
  }
}
