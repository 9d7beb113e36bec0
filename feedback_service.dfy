/** The request values built by the feedback service
    (src/services/feedbackService.ts): the query string of the feedback
    list, and the request bodies of the status update and of marking a
    feedback as read. The remote call itself and its errors are not part of
    this model. */
module FeedbackService {
  import opened Wrappers
  import opened Text
  import opened FormUrl

  datatype Status = Pending | Reviewed | Resolved
  datatype Category = Bug | Feature | General
  datatype SortOrder = Asc | Desc

  function StatusName(s: Status): string {
    match s
    case Pending => "pending"
    case Reviewed => "reviewed"
    case Resolved => "resolved"
  }

  function CategoryName(c: Category): string {
    match c
    case Bug => "bug"
    case Feature => "feature"
    case General => "general"
  }

  function SortOrderName(o: SortOrder): string {
    match o
    case Asc => "asc"
    case Desc => "desc"
  }

  function StatusNames(ss: seq<Status>): (r: seq<string>)
    ensures |r| == |ss|
  {
    seq(|ss|, k requires 0 <= k < |ss| => StatusName(ss[k]))
  }

  function CategoryNames(cs: seq<Category>): (r: seq<string>)
    ensures |r| == |cs|
  {
    seq(|cs|, k requires 0 <= k < |cs| => CategoryName(cs[k]))
  }

  /** JavaScript `b.toString()`. */
  function BoolName(b: bool): string {
    if b then "true" else "false"
  }

  /** The record the parameter list starts from: page, limit, sortBy and
      sortOrder, with `created_at` and `desc` when the caller leaves the
      last two undefined. */
  function FixedParams(page: int, limit: int, sortBy: Option<string>, sortOrder: Option<SortOrder>): seq<Pair> {
    [Pair("page", IntToDecimal(page)), Pair("limit", IntToDecimal(limit)),
     Pair("sortBy", sortBy.GetOr("created_at")), Pair("sortOrder", SortOrderName(sortOrder.GetOr(Desc)))]
  }

  lemma FixedParamsShape(page: int, limit: int, sortBy: Option<string>, sortOrder: Option<SortOrder>, key: string)
    ensures var fixed := FixedParams(page, limit, sortBy, sortOrder);
      && Names(fixed) == ["page", "limit", "sortBy", "sortOrder"]
      && GetAll(fixed, key) == (if key == "page" then [IntToDecimal(page)] else [])
                               + (if key == "limit" then [IntToDecimal(limit)] else [])
                               + (if key == "sortBy" then [sortBy.GetOr("created_at")] else [])
                               + (if key == "sortOrder" then [SortOrderName(sortOrder.GetOr(Desc))] else [])
  {
    var fixed := FixedParams(page, limit, sortBy, sortOrder);
    assert fixed[3..][1..] == [];
    assert fixed[2..][1..] == fixed[3..];
    assert fixed[1..][1..] == fixed[2..];
    assert Names(fixed[3..]) == ["sortOrder"];
    assert Names(fixed[2..]) == ["sortBy", "sortOrder"];
    assert Names(fixed[1..]) == ["limit", "sortBy", "sortOrder"];
    assert GetAll(fixed[3..], key) == if key == "sortOrder" then [SortOrderName(sortOrder.GetOr(Desc))] else [];
    assert GetAll(fixed[2..], key) == (if key == "sortBy" then [sortBy.GetOr("created_at")] else []) + GetAll(fixed[3..], key);
    assert GetAll(fixed[1..], key) == (if key == "limit" then [IntToDecimal(limit)] else []) + GetAll(fixed[2..], key);
  }

  function IsReadParams(isRead: Option<bool>): seq<Pair> {
    if isRead.Some? then [Pair("is_read", BoolName(isRead.value))] else []
  }

  /** The parameters of the feedback list request, in order. An absent and an
      empty filter list both add nothing. */
  function FeedbackParams(page: int, limit: int, status: Option<seq<Status>>, category: Option<seq<Category>>,
                          sortBy: Option<string>, sortOrder: Option<SortOrder>, isRead: Option<bool>): seq<Pair> {
    FixedParams(page, limit, sortBy, sortOrder)
    + Repeated("status", StatusNames(status.GetOr([])))
    + Repeated("category", CategoryNames(category.GetOr([])))
    + IsReadParams(isRead)
  }

  datatype HttpMethod = Get | Put
  datatype Json = JString(s: string) | JBool(b: bool)
  datatype Request = Request(httpMethod: HttpMethod, path: string, body: seq<(string, Json)>)

  /** `values.forEach((v) => params.append(name, v))`. */
  method AppendEach(params: SearchParams, name: string, values: seq<string>)
    modifies params
    ensures params.entries == old(params.entries) + Repeated(name, values)
  {
    ghost var start := params.entries;
    for i := 0 to |values|
      invariant params.entries == start + Repeated(name, values[..i])
    {
      params.Append(name, values[i]);
      assert Repeated(name, values[..i + 1]) == Repeated(name, values[..i]) + [Pair(name, values[i])];
    }
    assert values[..|values|] == values;
  }

  /** `fetchFeedbacks`: builds the `URLSearchParams` step by step, as the
      service does, and returns the request it sends. */
  method FetchFeedbacks(page: int, limit: int, status: Option<seq<Status>>, category: Option<seq<Category>>,
                        sortBy: Option<string>, sortOrder: Option<SortOrder>, isRead: Option<bool>)
    returns (r: Request)
    ensures r.httpMethod == Get && r.body == []
    ensures r.path == "feedback?" + Serialize(FeedbackParams(page, limit, status, category, sortBy, sortOrder, isRead))
  {
    var fixed := FixedParams(page, limit, sortBy, sortOrder);
    var params := new SearchParams(fixed);
    var statusNames := StatusNames(status.GetOr([]));
    if status.Some? && |status.value| > 0 {
      AppendEach(params, "status", statusNames);
    } else {
      assert Repeated("status", statusNames) == [];
    }
    var withStatus := params.entries;
    var categoryNames := CategoryNames(category.GetOr([]));
    if category.Some? && |category.value| > 0 {
      AppendEach(params, "category", categoryNames);
    } else {
      assert Repeated("category", categoryNames) == [];
    }
    assert params.entries == fixed + Repeated("status", statusNames) + Repeated("category", categoryNames);
    if isRead.Some? {
      params.Append("is_read", BoolName(isRead.value));
    }
    assert params.entries == FeedbackParams(page, limit, status, category, sortBy, sortOrder, isRead);
    r := Request(Get, "feedback?" + params.ToString(), []);
  }

  /** The order of the parameters: the four fixed keys, one `status` per
      selected status, one `category` per selected category, and `is_read`
      last when a boolean is given. */
  lemma FeedbackParamsNames(page: int, limit: int, status: Option<seq<Status>>, category: Option<seq<Category>>,
                            sortBy: Option<string>, sortOrder: Option<SortOrder>, isRead: Option<bool>)
    ensures Names(FeedbackParams(page, limit, status, category, sortBy, sortOrder, isRead))
      == ["page", "limit", "sortBy", "sortOrder"]
         + seq(|status.GetOr([])|, _ => "status")
         + seq(|category.GetOr([])|, _ => "category")
         + (if isRead.Some? then ["is_read"] else [])
  {
    var fixed := FixedParams(page, limit, sortBy, sortOrder);
    var sp := Repeated("status", StatusNames(status.GetOr([])));
    var cp := Repeated("category", CategoryNames(category.GetOr([])));
    GetAllRepeated("status", StatusNames(status.GetOr([])), "");
    GetAllRepeated("category", CategoryNames(category.GetOr([])), "");
    FixedParamsShape(page, limit, sortBy, sortOrder, "");
    assert Names(IsReadParams(isRead)) == if isRead.Some? then ["is_read"] else [];
    assert seq(|StatusNames(status.GetOr([]))|, _ => "status") == seq(|status.GetOr([])|, _ => "status");
    assert seq(|CategoryNames(category.GetOr([]))|, _ => "category") == seq(|category.GetOr([])|, _ => "category");
    NamesAppend(fixed + sp + cp, IsReadParams(isRead));
    NamesAppend(fixed + sp, cp);
    NamesAppend(fixed, sp);
  }

  lemma FeedbackParamsLookup(page: int, limit: int, status: Option<seq<Status>>, category: Option<seq<Category>>,
                              sortBy: Option<string>, sortOrder: Option<SortOrder>, isRead: Option<bool>, key: string)
    ensures GetAll(FeedbackParams(page, limit, status, category, sortBy, sortOrder, isRead), key)
      == GetAll(FixedParams(page, limit, sortBy, sortOrder), key)
         + (if key == "status" then StatusNames(status.GetOr([])) else [])
         + (if key == "category" then CategoryNames(category.GetOr([])) else [])
         + (if key == "is_read" && isRead.Some? then [BoolName(isRead.value)] else [])
  {
    var fixed := FixedParams(page, limit, sortBy, sortOrder);
    var sp := Repeated("status", StatusNames(status.GetOr([])));
    var cp := Repeated("category", CategoryNames(category.GetOr([])));
    var ir := IsReadParams(isRead);
    GetAllAppend(fixed + sp + cp, ir, key);
    GetAllAppend(fixed + sp, cp, key);
    GetAllAppend(fixed, sp, key);
    GetAllRepeated("status", StatusNames(status.GetOr([])), key);
    GetAllRepeated("category", CategoryNames(category.GetOr([])), key);
  }

  /** The values under one key: the fixed four, then the filters. */
  lemma FeedbackParamsKey(page: int, limit: int, status: Option<seq<Status>>, category: Option<seq<Category>>,
                          sortBy: Option<string>, sortOrder: Option<SortOrder>, isRead: Option<bool>, key: string)
    ensures GetAll(FeedbackParams(page, limit, status, category, sortBy, sortOrder, isRead), key)
      == (if key == "page" then [IntToDecimal(page)] else [])
         + (if key == "limit" then [IntToDecimal(limit)] else [])
         + (if key == "sortBy" then [sortBy.GetOr("created_at")] else [])
         + (if key == "sortOrder" then [SortOrderName(sortOrder.GetOr(Desc))] else [])
         + (if key == "status" then StatusNames(status.GetOr([])) else [])
         + (if key == "category" then CategoryNames(category.GetOr([])) else [])
         + (if key == "is_read" && isRead.Some? then [BoolName(isRead.value)] else [])
  {
    FeedbackParamsLookup(page, limit, status, category, sortBy, sortOrder, isRead, key);
    FixedParamsShape(page, limit, sortBy, sortOrder, key);
  }

  /** What the server reads per key: the page and limit numerals, the sort
      column and order with their defaults, every selected status and
      category in input order, and `is_read` only when given. */
  lemma FeedbackParamsValues(page: int, limit: int, status: Option<seq<Status>>, category: Option<seq<Category>>,
                             sortBy: Option<string>, sortOrder: Option<SortOrder>, isRead: Option<bool>)
    ensures var ps := FeedbackParams(page, limit, status, category, sortBy, sortOrder, isRead);
      && GetAll(ps, "page") == [IntToDecimal(page)]
      && GetAll(ps, "limit") == [IntToDecimal(limit)]
      && GetAll(ps, "sortBy") == [sortBy.GetOr("created_at")]
      && GetAll(ps, "sortOrder") == [SortOrderName(sortOrder.GetOr(Desc))]
      && GetAll(ps, "status") == StatusNames(status.GetOr([]))
      && GetAll(ps, "category") == CategoryNames(category.GetOr([]))
      && GetAll(ps, "is_read") == (if isRead.Some? then [BoolName(isRead.value)] else [])
  {
    FeedbackParamsKey(page, limit, status, category, sortBy, sortOrder, isRead, "page");
    FeedbackParamsKey(page, limit, status, category, sortBy, sortOrder, isRead, "limit");
    FeedbackParamsKey(page, limit, status, category, sortBy, sortOrder, isRead, "sortBy");
    FeedbackParamsKey(page, limit, status, category, sortBy, sortOrder, isRead, "sortOrder");
    FeedbackParamsKey(page, limit, status, category, sortBy, sortOrder, isRead, "status");
    FeedbackParamsKey(page, limit, status, category, sortBy, sortOrder, isRead, "category");
    FeedbackParamsKey(page, limit, status, category, sortBy, sortOrder, isRead, "is_read");
  }

  lemma IntToDecimalUnreserved(n: int)
    ensures AllUnreserved(IntToDecimal(n))
  {
    var d := NatToDecimal(if n < 0 then -n else n);
    assert forall k :: 0 <= k < |d| ==> IsUnreserved(d[k]);
    if n < 0 {
      var s := IntToDecimal(n);
      forall k | 0 <= k < |s| ensures IsUnreserved(s[k]) {
        if k > 0 { assert s[k] == d[k - 1]; }
      }
    }
  }

  lemma FixedParamsUnreserved(page: int, limit: int, sortBy: Option<string>, sortOrder: Option<SortOrder>)
    requires AllUnreserved(sortBy.GetOr("created_at"))
    ensures UnreservedPairs(FixedParams(page, limit, sortBy, sortOrder))
  {
    IntToDecimalUnreserved(page);
    IntToDecimalUnreserved(limit);
    assert AllUnreserved(SortOrderName(sortOrder.GetOr(Desc)));
    assert AllUnreserved("page") && AllUnreserved("limit") && AllUnreserved("sortBy") && AllUnreserved("sortOrder");
  }

  lemma FilterParamsUnreserved(status: seq<Status>, category: seq<Category>, isRead: Option<bool>)
    ensures UnreservedPairs(Repeated("status", StatusNames(status)))
    ensures UnreservedPairs(Repeated("category", CategoryNames(category)))
    ensures UnreservedPairs(IsReadParams(isRead))
  {
    var sn := StatusNames(status);
    forall k | 0 <= k < |sn| ensures AllUnreserved(sn[k]) {
      assert AllUnreserved(StatusName(status[k]));
    }
    assert AllUnreserved("status");
    UnreservedRepeated("status", sn);
    var cn := CategoryNames(category);
    forall k | 0 <= k < |cn| ensures AllUnreserved(cn[k]) {
      assert AllUnreserved(CategoryName(category[k]));
    }
    assert AllUnreserved("category");
    UnreservedRepeated("category", cn);
    if isRead.Some? {
      assert AllUnreserved(BoolName(isRead.value)) && AllUnreserved("is_read");
    }
  }

  /** Every name and value the list request carries needs no encoding when
      the sort column does not, so the server reads back exactly the
      parameters built, in order. */
  lemma FeedbackParamsRoundTrip(page: int, limit: int, status: Option<seq<Status>>, category: Option<seq<Category>>,
                                sortBy: Option<string>, sortOrder: Option<SortOrder>, isRead: Option<bool>)
    requires AllUnreserved(sortBy.GetOr("created_at"))
    ensures var ps := FeedbackParams(page, limit, status, category, sortBy, sortOrder, isRead);
      ParseQuery(Serialize(ps)) == ps
  {
    var fixed := FixedParams(page, limit, sortBy, sortOrder);
    var sp := Repeated("status", StatusNames(status.GetOr([])));
    var cp := Repeated("category", CategoryNames(category.GetOr([])));
    var ir := IsReadParams(isRead);
    FixedParamsUnreserved(page, limit, sortBy, sortOrder);
    FilterParamsUnreserved(status.GetOr([]), category.GetOr([]), isRead);
    UnreservedAppend(fixed, sp);
    UnreservedAppend(fixed + sp, cp);
    UnreservedAppend(fixed + sp + cp, ir);
    UnreservedRoundTrip(fixed + sp + cp + ir);
  }

  /** The unread-feedback counter asks for page 1 with limit 1, leaves the
      filters and the sort undefined and passes `is_read` false: the
      defaults fill in the sort, and `is_read` comes last. */
  lemma UnreadCountParams()
    ensures FeedbackParams(1, 1, None, None, None, None, Some(false))
      == [Pair("page", "1"), Pair("limit", "1"), Pair("sortBy", "created_at"), Pair("sortOrder", "desc"),
          Pair("is_read", "false")]
  {
    assert IntToDecimal(1) == "1";
    assert Repeated("status", StatusNames([])) == [];
    assert Repeated("category", CategoryNames([])) == [];
  }

  /** The value stored under `key` in a JSON object body. */
  function Lookup(body: seq<(string, Json)>, key: string): Option<Json> {
    if body == [] then None else if body[0].0 == key then Some(body[0].1) else Lookup(body[1..], key)
  }

  /** `updateFeedbackStatus`: a PUT to `feedback` with the body `{id, status}`. */
  function UpdateFeedbackStatus(id: string, status: Status): Request {
    Request(Put, "feedback", [("id", JString(id)), ("status", JString(StatusName(status)))])
  }

  /** `markFeedbackAsRead`: a PUT to `feedback` with the body `{id, is_read: true}`. */
  function MarkFeedbackAsRead(id: string): Request {
    Request(Put, "feedback", [("id", JString(id)), ("is_read", JBool(true))])
  }

  /** Both updates go to the same endpoint with the feedback's id; the
      server tells them apart by their keys, since a status update carries
      no `is_read` and marking as read carries no `status`. */
  lemma UpdateBodies(id: string, status: Status)
    ensures var u, m := UpdateFeedbackStatus(id, status), MarkFeedbackAsRead(id);
      && u.httpMethod == m.httpMethod == Put && u.path == m.path == "feedback"
      && Lookup(u.body, "id") == Lookup(m.body, "id") == Some(JString(id))
      && Lookup(u.body, "status") == Some(JString(StatusName(status))) && Lookup(u.body, "is_read") == None
      && Lookup(m.body, "is_read") == Some(JBool(true)) && Lookup(m.body, "status") == None
  {
    var u, m := UpdateFeedbackStatus(id, status), MarkFeedbackAsRead(id);
    assert u.body[1..][1..] == [] && m.body[1..][1..] == [];
    assert "id" != "is_read" && "status" != "is_read" && "id" != "status";
    assert Lookup(u.body[1..], "is_read") == None;
    assert Lookup(m.body[1..], "status") == None;
  }

  /** `fetchFeedbackById`: the id is pasted into the query without encoding. */
  function FetchFeedbackById(id: string): Request {
    Request(Get, "feedback?id=" + id, [])
  }

  /** For an id that needs no encoding (a UUID does not) the query reads back
      as the single pair `id`. */
  lemma FetchFeedbackByIdQuery(id: string)
    requires AllUnreserved(id)
    ensures var r := FetchFeedbackById(id);
      r.path[..|"feedback?"|] == "feedback?" && ParseQuery(r.path[|"feedback?"|..]) == [Pair("id", id)]
  {
    IdQueryRoundTrip(id);
    assert FetchFeedbackById(id).path[|"feedback?"|..] == "id=" + id;
  }

  lemma IdQueryRoundTrip(id: string)
    requires AllUnreserved(id)
    ensures ParseQuery("id=" + id) == [Pair("id", id)]
  {
    var ps := [Pair("id", id)];
    IdPairSerialized(id);
    assert UnreservedPairs(ps) by {
      assert AllUnreserved("id");
    }
    UnreservedRoundTrip(ps);
  }

  lemma IdPairSerialized(id: string)
    requires AllUnreserved(id)
    ensures Serialize([Pair("id", id)]) == "id=" + id
  {
    var ps := [Pair("id", id)];
    assert AllUnreserved("id");
    EncodeUnreserved(id);
    EncodeUnreserved("id");
    assert Tuples(ps) == [Tuple(ps[0])];
  }
}
