/**
 * The oldest-item arithmetic of lines 46-48 and 60-62: a listing of `n`
 * items, newest first, is served in pages of 30; page `(n - 1) / 30`
 * (numbered from 0) is read and its last element taken as the oldest item.
 */
module Pagination {

  const PerPage: nat := 30

  /** The page number computed at lines 46 and 60. */
  function LastPageNumber(total: nat): (p: nat)
    requires total > 0
    ensures p * PerPage < total <= p * PerPage + PerPage
  {
    (total - 1) / PerPage
  }

  /** Page `p` of a listing: items `30p` up to `30p + 30`, cut at the end. */
  function Page<T>(items: seq<T>, p: nat): (page: seq<T>)
    ensures |page| <= PerPage
    ensures |page| == 0 <==> |items| <= p * PerPage
    ensures |items| > p * PerPage ==>
      |page| == (if |items| - p * PerPage < PerPage then |items| - p * PerPage else PerPage)
    ensures forall k :: 0 <= k < |page| ==> p * PerPage + k < |items| && page[k] == items[p * PerPage + k]
  {
    var start := p * PerPage;
    if |items| <= start then []
    else if |items| <= start + PerPage then items[start..]
    else items[start..start + PerPage]
  }

  /**
   * The page read at lines 47 and 61 is never empty, so `[-1]` cannot
   * raise, and its last element is the last item of the whole listing.
   */
  lemma LastPageHoldsLastItem<T>(items: seq<T>)
    requires |items| > 0
    ensures var page := Page(items, LastPageNumber(|items|));
      |page| >= 1 && page[|page| - 1] == items[|items| - 1]
  {
  }

  /** Every page after the one read is empty: it is the last page. */
  lemma LaterPagesEmpty<T>(items: seq<T>, q: nat)
    requires |items| > 0 && q > LastPageNumber(|items|)
    ensures Page(items, q) == []
  {
  }

  /** `get_page((n - 1) // 30)[-1]`: the item lines 48 and 62 read. */
  function LastOfLastPage<T>(items: seq<T>): (x: T)
    requires |items| > 0
    ensures x == items[|items| - 1]
  {
    LastPageHoldsLastItem(items);
    var page := Page(items, LastPageNumber(|items|));
    page[|page| - 1]
  }
}
