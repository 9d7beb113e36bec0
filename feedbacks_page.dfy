/** The feedback list page (src/routes/dashboard/feedbacks.tsx): the page,
    the filter and sort state, the query it derives from them, and the
    Previous and Next buttons. Rendering and the fetch itself are not part
    of this model; the fetched `totalPages` and `isLoading` are arguments. */
module FeedbacksPage {
  import opened Wrappers
  import opened Lists
  import opened Text
  import opened FormUrl
  import opened Paging
  import opened FeedbackService

  /** One entry of the table's sorting state. */
  datatype SortEntry = SortEntry(id: string, desc: bool)
  datatype View = ListView | GridView

  const NewestFirst: seq<SortEntry> := [SortEntry("created_at", true)]
  const OldestFirst: seq<SortEntry> := [SortEntry("created_at", false)]

  /** `sortBy || 'created_at'`: the first entry's column, or `created_at`
      when there is no entry or its id is empty. */
  function SortColumn(sorting: seq<SortEntry>): (r: string)
    ensures r != ""
    ensures |sorting| > 0 && sorting[0].id != "" ==> r == sorting[0].id
    ensures !(|sorting| > 0 && sorting[0].id != "") ==> r == "created_at"
  {
    if |sorting| > 0 && sorting[0].id != "" then sorting[0].id else "created_at"
  }

  /** `sorting[0]?.desc ? 'desc' : 'asc'`: descending only when the first
      entry asks for it; an empty sorting reads as ascending. */
  function SortOrderOf(sorting: seq<SortEntry>): (r: SortOrder)
    ensures r == Desc <==> |sorting| > 0 && sorting[0].desc
  {
    if |sorting| > 0 && sorting[0].desc then Desc else Asc
  }

  /** An empty filter list is passed as undefined. */
  function FilterArg<T>(selected: seq<T>): (r: Option<seq<T>>)
    ensures r.None? <==> selected == []
    ensures r.GetOr([]) == selected
  {
    if |selected| > 0 then Some(selected) else None
  }

  /** The parameters the page's query sends, through `useFeedbacks` to the
      service. */
  function PageQuery(page: int, limit: int, status: seq<Status>, category: seq<Category>, sorting: seq<SortEntry>): seq<Pair> {
    FeedbackParams(page, limit, FilterArg(status), FilterArg(category),
                   Some(SortColumn(sorting)), Some(SortOrderOf(sorting)), None)
  }

  /** The request carries exactly the page state: the page and limit, every
      selected status and category in selection order, the sort column
      and order, and no `is_read`. */
  lemma PageQueryValues(page: int, limit: int, status: seq<Status>, category: seq<Category>, sorting: seq<SortEntry>)
    ensures var ps := PageQuery(page, limit, status, category, sorting);
      && GetAll(ps, "page") == [IntToDecimal(page)]
      && GetAll(ps, "limit") == [IntToDecimal(limit)]
      && GetAll(ps, "status") == StatusNames(status)
      && GetAll(ps, "category") == CategoryNames(category)
      && GetAll(ps, "sortBy") == [SortColumn(sorting)]
      && GetAll(ps, "sortOrder") == [SortOrderName(SortOrderOf(sorting))]
      && GetAll(ps, "is_read") == []
  {
    FeedbackParamsValues(page, limit, FilterArg(status), FilterArg(category),
                         Some(SortColumn(sorting)), Some(SortOrderOf(sorting)), None);
  }

  /** The page's first request: page 1 of 10, newest first, no filter. */
  lemma InitialQuery()
    ensures PageQuery(1, 10, [], [], NewestFirst)
      == [Pair("page", "1"), Pair("limit", "10"), Pair("sortBy", "created_at"), Pair("sortOrder", "desc")]
  {
    assert IntToDecimal(10) == "10" by {
      assert NatToDecimal(10) == NatToDecimal(1) + [DigitChar(0)];
    }
    assert Repeated("status", StatusNames([])) == [];
    assert Repeated("category", CategoryNames([])) == [];
  }

  /** An empty sorting asks for `created_at` ascending, whereas leaving the
      order undefined would give the service's descending default. */
  lemma EmptySortingIsAscending()
    ensures SortColumn([]) == "created_at" && SortOrderOf([]) == Asc
    ensures FixedParams(1, 10, Some(SortColumn([])), Some(SortOrderOf([])))
         != FixedParams(1, 10, None, None)
  {
    assert FixedParams(1, 10, None, None)[3].value == "desc";
  }

  /** The number on the Filters badge. */
  function BadgeCount(status: seq<Status>, category: seq<Category>): nat {
    |status| + |category|
  }

  /** The badge is rendered when some filter is selected. */
  predicate BadgeShown(status: seq<Status>, category: seq<Category>) {
    |status| > 0 || |category| > 0
  }

  /** The badge is shown exactly when its number is positive. */
  lemma BadgeShownIffPositive(status: seq<Status>, category: seq<Category>)
    ensures BadgeShown(status, category) <==> BadgeCount(status, category) > 0
  {
  }

  /** The Previous button's `disabled`: on page 1 or while loading. */
  predicate PrevDisabled(page: int, isLoading: bool) {
    page == 1 || isLoading
  }

  /** The Next button's `disabled`: on the last page or while loading. */
  predicate NextDisabled(page: int, totalPages: int, isLoading: bool) {
    page == totalPages || isLoading
  }

  class FeedbacksView {
    var page: int
    const limit: int
    var view: View
    var showFilters: bool
    var selectedStatus: seq<Status>
    var selectedCategory: seq<Category>
    var sorting: seq<SortEntry>

    /** Every filter value is selected at most once, and the sorting is one
        of the two the buttons set. */
    ghost predicate Valid()
      reads this
    {
      NoDup(selectedStatus) && NoDup(selectedCategory) && (sorting == NewestFirst || sorting == OldestFirst)
    }

    constructor ()
      ensures page == 1 && limit == 10 && view == ListView && !showFilters
      ensures selectedStatus == [] && selectedCategory == [] && sorting == NewestFirst
      ensures Valid()
    {
      page, limit, view, showFilters := 1, 10, ListView, false;
      selectedStatus, selectedCategory, sorting := [], [], NewestFirst;
    }

    /** What the page currently asks the server for. */
    function Query(): seq<Pair>
      reads this
    {
      PageQuery(page, limit, selectedStatus, selectedCategory, sorting)
    }

    /** `toggleStatus`: flips the status in the selection and goes back to
        page 1. */
    method ToggleStatus(status: Status)
      modifies this
      ensures selectedStatus == Toggle(old(selectedStatus), status)
      ensures status in selectedStatus <==> status !in old(selectedStatus)
      ensures page == 1
      ensures selectedCategory == old(selectedCategory) && sorting == old(sorting)
      ensures view == old(view) && showFilters == old(showFilters)
      ensures old(Valid()) ==> Valid()
    {
      if NoDup(selectedStatus) {
        ToggleKeepsNoDup(selectedStatus, status);
      }
      selectedStatus := Toggle(selectedStatus, status);
      page := 1;
    }

    /** `toggleCategory`: flips the category in the selection and goes back
        to page 1. */
    method ToggleCategory(category: Category)
      modifies this
      ensures selectedCategory == Toggle(old(selectedCategory), category)
      ensures category in selectedCategory <==> category !in old(selectedCategory)
      ensures page == 1
      ensures selectedStatus == old(selectedStatus) && sorting == old(sorting)
      ensures view == old(view) && showFilters == old(showFilters)
      ensures old(Valid()) ==> Valid()
    {
      if NoDup(selectedCategory) {
        ToggleKeepsNoDup(selectedCategory, category);
      }
      selectedCategory := Toggle(selectedCategory, category);
      page := 1;
    }

    /** The Oldest First button. Unlike the filters it keeps the page. */
    method SortOldestFirst()
      modifies this
      ensures sorting == OldestFirst
      ensures SortColumn(sorting) == "created_at" && SortOrderOf(sorting) == Asc
      ensures page == old(page) && selectedStatus == old(selectedStatus) && selectedCategory == old(selectedCategory)
      ensures view == old(view) && showFilters == old(showFilters)
      ensures old(Valid()) ==> Valid()
    {
      sorting := OldestFirst;
    }

    /** The Newest First button; it keeps the page too. */
    method SortNewestFirst()
      modifies this
      ensures sorting == NewestFirst
      ensures SortColumn(sorting) == "created_at" && SortOrderOf(sorting) == Desc
      ensures page == old(page) && selectedStatus == old(selectedStatus) && selectedCategory == old(selectedCategory)
      ensures view == old(view) && showFilters == old(showFilters)
      ensures old(Valid()) ==> Valid()
    {
      sorting := NewestFirst;
    }

    /** The Filters button shows or hides the filter panel. */
    method ToggleFilters()
      modifies this
      ensures showFilters == !old(showFilters)
      ensures page == old(page) && selectedStatus == old(selectedStatus) && selectedCategory == old(selectedCategory)
      ensures sorting == old(sorting) && view == old(view)
    {
      showFilters := !showFilters;
    }

    /** The list and grid buttons. */
    method SetView(v: View)
      modifies this
      ensures view == v
      ensures page == old(page) && selectedStatus == old(selectedStatus) && selectedCategory == old(selectedCategory)
      ensures sorting == old(sorting) && showFilters == old(showFilters)
    {
      view := v;
    }

    /** The Previous button, shown when the response has a `meta`, disabled
        on page 1 and while loading. */
    method ClickPrevious(hasMeta: bool, isLoading: bool)
      modifies this
      ensures page == if hasMeta && !PrevDisabled(old(page), isLoading) then PrevPage(old(page)) else old(page)
      ensures old(page) >= 1 ==> page >= 1
      ensures selectedStatus == old(selectedStatus) && selectedCategory == old(selectedCategory)
      ensures sorting == old(sorting) && view == old(view) && showFilters == old(showFilters)
    {
      if hasMeta && !PrevDisabled(page, isLoading) {
        page := PrevPage(page);
      }
    }

    /** The Next button, shown when the response has a `meta` (`totalPages`
        present), disabled on the last page and while loading. It keeps the
        page within 1 and `totalPages` when the server reports at least one
        page. */
    method ClickNext(totalPages: Option<int>, isLoading: bool)
      modifies this
      ensures page == if totalPages.Some? && !NextDisabled(old(page), totalPages.value, isLoading)
                      then NextPage(old(page), totalPages.value) else old(page)
      ensures totalPages.Some? && 1 <= old(page) <= totalPages.value ==> 1 <= page <= totalPages.value
      ensures selectedStatus == old(selectedStatus) && selectedCategory == old(selectedCategory)
      ensures sorting == old(sorting) && view == old(view) && showFilters == old(showFilters)
    {
      if totalPages.Some? && !NextDisabled(page, totalPages.value, isLoading) {
        page := NextPage(page, totalPages.value);
      }
    }
  }

  /** With an empty result the server may report zero pages; Next is then
      enabled on page 1 and moves to page 0, unlike the passage pager,
      which falls back to one page. */
  lemma NextOnZeroPages()
    ensures !NextDisabled(1, 0, false) && NextPage(1, 0) == 0
  {
  }

  /** The same from the page's own state: a fresh page that receives zero
      pages and is not loading lands on page 0 after one Next. */
  method NextOnZeroPagesFromStart() returns (page: int)
    ensures page == 0
  {
    var view := new FeedbacksView();
    view.ClickNext(Some(0), false);
    page := view.page;
  }

  /** The request a freshly opened page sends: the constructed view's
      `Query()` is the initial query. */
  method FirstRequest() returns (query: seq<Pair>)
    ensures query == [Pair("page", "1"), Pair("limit", "10"), Pair("sortBy", "created_at"), Pair("sortOrder", "desc")]
  {
    var view := new FeedbacksView();
    InitialQuery();
    query := view.Query();
  }
}
