/** Page arithmetic shared by the feedback list and the passage list:
    the clamps of the Previous and Next buttons, and the passage pager's
    "Showing X to Y of N" range (src/components/passage/list/PassagePagination.tsx). */
module Paging {
  import opened Wrappers

  /** `Math.max(1, page - 1)`: one page back, never below page 1. Going back
      changes nothing exactly on page 1. */
  function PrevPage(page: int): (r: int)
    ensures r >= 1 && r >= page - 1
    ensures r == 1 || r == page - 1
    ensures r == page <==> page == 1
    ensures page >= 2 ==> r == page - 1
  {
    if page - 1 > 1 then page - 1 else 1
  }

  /** `Math.min(totalPages, page + 1)`: one page on, never past the last
      page. Going on changes nothing exactly on the last page. */
  function NextPage(page: int, totalPages: int): (r: int)
    ensures r <= totalPages && r <= page + 1
    ensures r == totalPages || r == page + 1
    ensures r == page <==> page == totalPages
    ensures page < totalPages ==> r == page + 1
  {
    if totalPages < page + 1 then totalPages else page + 1
  }

  /** Both clamps keep a page that is in range in range. */
  lemma ClampsStayInRange(page: int, totalPages: int)
    requires 1 <= page <= totalPages
    ensures 1 <= PrevPage(page) <= totalPages
    ensures 1 <= NextPage(page, totalPages) <= totalPages
  {
  }

  /** What the passage pager shows: the first and last item numbers of the
      page, the page label and the two buttons with their targets. */
  datatype PagerView = PagerView(
    first: int, last: int, total: int, page: int, totalPages: int,
    prevTarget: int, prevDisabled: bool, nextTarget: int, nextDisabled: bool)

  function Min(a: int, b: int): int {
    if a <= b then a else b
  }

  /** PassagePagination: nothing when there are no results; otherwise the
      range `(page - 1) * pageSize + 1` to `min(page * pageSize, total)`,
      Previous disabled on page 1 and Next disabled on the last page. */
  function PassagePagination(page: int, totalPages: int, total: int, pageSize: int): (r: Option<PagerView>)
    ensures r.None? <==> total == 0
    ensures r.Some? ==> r.value.last <= total
  {
    if total == 0 then None
    else Some(PagerView(
      (page - 1) * pageSize + 1, Min(page * pageSize, total), total, page, totalPages,
      PrevPage(page), page == 1, NextPage(page, totalPages), page == totalPages))
  }

  /** A button is disabled exactly when clicking it would not move. */
  lemma DisabledMeansNoMove(page: int, totalPages: int, total: int, pageSize: int)
    requires total != 0
    ensures var v := PassagePagination(page, totalPages, total, pageSize).value;
      && (v.prevDisabled <==> v.prevTarget == page)
      && (v.nextDisabled <==> v.nextTarget == page)
  {
  }

  lemma MulMonotone(a: int, b: int, c: int)
    requires a <= b && c >= 0
    ensures a * c <= b * c
  {
    assert b * c - a * c == (b - a) * c;
  }

  /** On a page that starts inside the results, the range is non-empty, starts
      at item 1 or later and holds at most `pageSize` items. */
  lemma ShownRange(page: int, totalPages: int, total: int, pageSize: int)
    requires page >= 1 && pageSize >= 1
    requires 0 <= (page - 1) * pageSize < total
    ensures var v := PassagePagination(page, totalPages, total, pageSize).value;
      1 <= v.first <= v.last <= total && v.last - v.first + 1 <= pageSize
  {
    assert page * pageSize == (page - 1) * pageSize + pageSize;
  }

  /** The pages agree with the totals the server reports: `totalPages` pages
      of `pageSize` items cover `total` items, and one page fewer does not. */
  predicate ConsistentMeta(total: int, totalPages: int, pageSize: int) {
    pageSize >= 1 && totalPages >= 1 && (totalPages - 1) * pageSize < total <= totalPages * pageSize
  }

  /** With consistent totals, every page from 1 to `totalPages` shows a
      non-empty range, consecutive pages continue where the previous one
      stopped, the first page starts at item 1 and the last page ends at the
      last item. */
  lemma PagesCoverResults(page: int, totalPages: int, total: int, pageSize: int)
    requires ConsistentMeta(total, totalPages, pageSize)
    requires 1 <= page <= totalPages
    ensures var v := PassagePagination(page, totalPages, total, pageSize).value;
      && 1 <= v.first <= v.last <= total
      && (page == 1 ==> v.first == 1)
      && (page == totalPages ==> v.last == total)
      && (page < totalPages ==> v.last + 1 == PassagePagination(page + 1, totalPages, total, pageSize).value.first)
  {
    MulMonotone(page - 1, totalPages - 1, pageSize);
    MulMonotone(0, page - 1, pageSize);
    ShownRange(page, totalPages, total, pageSize);
    if page < totalPages {
      MulMonotone(page, totalPages - 1, pageSize);
    }
  }
}
