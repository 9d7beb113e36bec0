/** The passage list's state (src/hooks/usePassages.ts): the current page,
    the defaults derived from the fetched envelope, and the confirmed
    deletes. The fetch and the delete request themselves are remote calls
    and not part of this model; `window.confirm` is the `confirmed`
    argument. */
module PassagesHook {
  import opened Wrappers
  import opened Paging

  datatype Meta = Meta(page: int, limit: int, total: int, totalPages: int)

  /** A page of results as the server returns it. */
  datatype Envelope<T> = Envelope(data: seq<T>, meta: Meta)

  /** `data?.data || []`: the fetched rows, none before the first response. */
  function PassagesOf<T>(response: Option<Envelope<T>>): (r: seq<T>)
    ensures response.None? ==> r == []
    ensures response.Some? ==> r == response.value.data
  {
    match response
    case None => []
    case Some(e) => e.data
  }

  /** `meta?.total || 0`. The fallback only matters without a response: a
      reported total of 0 gives 0 either way. */
  function TotalOf<T>(response: Option<Envelope<T>>): (r: int)
    ensures r == if response.None? then 0 else response.value.meta.total
  {
    if response.Some? && response.value.meta.total != 0 then response.value.meta.total else 0
  }

  /** `meta?.totalPages || 1`: 1 without a response or when the server
      reports 0 pages, so it is at least 1 whenever the reported count is
      not negative. */
  function TotalPagesOf<T>(response: Option<Envelope<T>>): (r: int)
    ensures response.None? ==> r == 1
    ensures response.Some? && response.value.meta.totalPages == 0 ==> r == 1
    ensures response.Some? && response.value.meta.totalPages != 0 ==> r == response.value.meta.totalPages
    ensures (response.None? || response.value.meta.totalPages >= 0) ==> r >= 1
  {
    if response.Some? && response.value.meta.totalPages != 0 then response.value.meta.totalPages else 1
  }

  class PassageList<T> {
    const pageSize: int
    var page: int
    /** The ids passed to the delete mutation, oldest first. */
    var deleteRequests: seq<string>

    /** `usePassages(pageSize = 10)`: starts on page 1 with no delete. */
    constructor (pageSize: Option<int>)
      ensures this.pageSize == pageSize.GetOr(10)
      ensures page == 1 && deleteRequests == []
    {
      this.pageSize := pageSize.GetOr(10);
      page := 1;
      deleteRequests := [];
    }

    /** `deleteMutation.variables`: the id of the latest delete. */
    function DeletingId(): Option<string>
      reads this
    {
      if deleteRequests == [] then None else Some(deleteRequests[|deleteRequests| - 1])
    }

    /** `handleDelete`: a delete is issued only after a positive
        confirmation, and then it is the one `deletingId` names. */
    method HandleDelete(id: string, confirmed: bool)
      modifies this
      ensures deleteRequests == old(deleteRequests) + (if confirmed then [id] else [])
      ensures confirmed ==> DeletingId() == Some(id)
      ensures !confirmed ==> DeletingId() == old(DeletingId())
      ensures page == old(page)
    {
      if confirmed {
        deleteRequests := deleteRequests + [id];
      }
    }

    /** What the pager below the list shows for the current response. */
    function Pager(response: Option<Envelope<T>>): Option<PagerView>
      reads this
    {
      PassagePagination(page, TotalPagesOf(response), TotalOf(response), pageSize)
    }

    /** The pager's Previous button, wired to `setPage`. */
    method ClickPrevious(response: Option<Envelope<T>>)
      modifies this
      ensures var v := old(Pager(response));
        page == if v.None? || v.value.prevDisabled then old(page) else v.value.prevTarget
      ensures old(page) >= 1 ==> page >= 1
      ensures deleteRequests == old(deleteRequests)
    {
      var v := Pager(response);
      if v.Some? && !v.value.prevDisabled {
        page := v.value.prevTarget;
      }
    }

    /** The pager's Next button, wired to `setPage`. Thanks to the
        `totalPages` fallback it never leaves page 1 or later for a page
        below 1. */
    method ClickNext(response: Option<Envelope<T>>)
      modifies this
      ensures var v := old(Pager(response));
        page == if v.None? || v.value.nextDisabled then old(page) else v.value.nextTarget
      ensures (response.None? || response.value.meta.totalPages >= 0) && old(page) >= 1 ==> page >= 1
      ensures deleteRequests == old(deleteRequests)
    {
      var v := Pager(response);
      if v.Some? && !v.value.nextDisabled {
        page := v.value.nextTarget;
      }
    }
  }

  /** Before the first response there is nothing to page through. */
  lemma NoResponseNoPager<T>(page: int, pageSize: int)
    ensures PassagePagination(page, TotalPagesOf<T>(None), TotalOf<T>(None), pageSize).None?
  {
  }
}
