/**
 * What the content script reads from the address of the results page: the
 * search query (parameter `q`), the page index (parameter `start`), and the
 * substring tests both scripts use on URLs.
 */
module PageContext {
  import opened Wrappers
  import opened Text
  import TextProperties

  /** The query recorded when the URL has no (or an empty) `q` parameter. */
  const UnknownQuery: string := "unknown query"

  /** `getSearchQuery`: `clean(q || 'unknown query')`. */
  function SearchQuery(q: Option<string>): (r: string)
    ensures IsClean(r)
    ensures q == None || q == Some([]) ==> r == UnknownQuery
    ensures q != None && q != Some([]) ==> r == Clean(q)
  {
    if q == None || q == Some([]) then
      UnknownQueryIsClean();
      TextProperties.CleanFixesCleanText(UnknownQuery);
      Clean(Some(UnknownQuery))
    else Clean(q)
  }

  /** The placeholder query is already clean. */
  lemma UnknownQueryIsClean()
    ensures IsClean(UnknownQuery)
  {
  }

  /**
   * `getPageNumber`: page 1 when `start` is absent (or empty), otherwise
   * `Math.floor(start / 10) + 1`. Dafny's `/` by the positive divisor 10
   * rounds toward negative infinity, as `Math.floor` does.
   */
  function PageNumber(start: Option<int>): (r: int)
    ensures start == None ==> r == 1
    ensures start != None ==> (r - 1) * 10 <= start.value < r * 10
    ensures start != None && start.value >= 0 ==> r >= 1
  {
    match start
    case None => 1
    case Some(offset) => offset / 10 + 1
  }

  /** `s.includes(sub)`. */
  predicate Contains(s: string, sub: string) {
    sub <= s || (s != [] && Contains(s[1..], sub))
  }

  /** `sub` occurs in `s` starting at position `i`. */
  predicate OccursAt(s: string, sub: string, i: nat) {
    i + |sub| <= |s| && s[i..i + |sub|] == sub
  }

  /** `Contains` holds exactly when `sub` occurs at some position of `s`. */
  lemma {:induction false} ContainsAt(s: string, sub: string)
    ensures Contains(s, sub) <==> exists i: nat :: OccursAt(s, sub, i)
  {
    if sub <= s {
      assert OccursAt(s, sub, 0);
    } else if s != [] {
      ContainsAt(s[1..], sub);
      if exists i: nat :: OccursAt(s, sub, i) {
        var i: nat :| OccursAt(s, sub, i);
        assert i > 0;
        assert OccursAt(s[1..], sub, i - 1) by {
          assert s[1..][i - 1..i - 1 + |sub|] == s[i..i + |sub|];
        }
      }
      if exists i: nat :: OccursAt(s[1..], sub, i) {
        var i: nat :| OccursAt(s[1..], sub, i);
        assert OccursAt(s, sub, i + 1) by {
          assert s[1..][i..i + |sub|] == s[i + 1..i + 1 + |sub|];
        }
      }
    }
  }
}
