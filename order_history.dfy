/** The admin history view of
    `Frontend/src/Components/Admin/Order_History.jsx`: a status filter over
    either one searched order or the whole history, driven by the search box
    and the filter menu. A request and its completion are separate events, as
    the fetches are asynchronous. */
module OrderHistory {
  import opened Common
  import opened Text
  import opened Lists
  import opened Models
  import opened OrderSearch

  /** `status !== 'all' ? list.filter(o => o.Status === status) : list`. */
  function WithStatus(orders: seq<Order>, status: string): (r: seq<Order>)
    ensures status == "all" ==> r == orders
    ensures status != "all" ==> forall o :: o in r <==> o in orders && o.status == status
  {
    if status == "all" then orders else Filter(orders, (o: Order) => o.status == status)
  }

  /** The filter keeps every order it admits as often as it came, in the
      fetched order, and drops the others. */
  lemma WithStatusCount(orders: seq<Order>, status: string, o: Order)
    ensures multiset(WithStatus(orders, status))[o] ==
      if status == "all" || o.status == status then multiset(orders)[o] else 0
  {
    if status != "all" {
      FilterCount(orders, (x: Order) => x.status == status, o);
    }
  }

  /** Filtering by the status already filtered by changes nothing. */
  lemma WithStatusIdempotent(orders: seq<Order>, status: string)
    ensures WithStatus(WithStatus(orders, status), status) == WithStatus(orders, status)
  {
    if status != "all" {
      FilterIdempotent(orders, (o: Order) => o.status == status);
    }
  }

  /** The search branch: `res.data.order ? [res.data.order] : []`, then the
      status filter. At most one order, and it is shown exactly when it was
      found and passes the filter. */
  function SearchResult(order: Option<Order>, status: string): (r: seq<Order>)
    ensures |r| <= 1
    ensures r != [] <==> order.Some? && (status == "all" || order.value.status == status)
    ensures r != [] ==> r == [order.value]
  {
    WithStatus(if order.Some? then [order.value] else [], status)
  }

  /** `res.data.orders || []`. */
  function FetchedList(body: OrdersBody): seq<Order>
  {
    if body.orders.Some? then body.orders.value else []
  }

  /** The query `handleFilter` makes for the current search box: the search
      again when its trimmed text is six characters, the whole list
      otherwise. */
  function FilterQuery(searchId: string): (q: Query)
    ensures q.Search? <==> |Trim(searchId)| == 6
    ensures q.Search? ==> q.orderId == Trim(searchId)
  {
    if |Trim(searchId)| == 6 then Search(Trim(searchId)) else ListAll
  }

  /** A filter change repeats the search the search box last started, and
      starts no search the box would not have started. */
  lemma FilterRepeatsSearch(searchId: string)
    ensures FilterQuery(searchId).Search? ==> SearchTrigger(searchId) == Some(FilterQuery(searchId))
    ensures SearchTrigger(searchId).Some? && SearchTrigger(searchId).value.Search? ==>
      FilterQuery(searchId) == SearchTrigger(searchId).value
    ensures SearchTrigger(searchId) == Some(ListAll) ==> FilterQuery(searchId) == ListAll
  {
  }

  /** A call `fetchHistory(orderId, status)`. */
  datatype Request = Request(query: Query, status: string)

  class OrderHistoryPage {
    var orders: seq<Order>
    var loading: bool
    var searchId: string
    var filter: string
    var showFilter: bool

    /** Mounting runs the `[filter]` effect: the whole history, unfiltered. */
    constructor ()
      ensures orders == [] && loading && searchId == "" && filter == "all" && !showFilter
      ensures MountRequest() == Request(ListAll, "all")
    {
      orders := [];
      loading := true;
      searchId := "";
      filter := "all";
      showFilter := false;
    }

    /** The request of the `[filter]` effect. */
    function MountRequest(): Request
      reads this
    {
      Request(ListAll, filter)
    }

    /** `handleSearch(id)`: remember the text and start what SearchTrigger
        says, under the current filter. */
    method HandleSearch(id: string) returns (requests: seq<Request>)
      modifies this
      ensures searchId == id && filter == old(filter) && orders == old(orders)
      ensures SearchTrigger(id).None? ==> requests == [] && loading == old(loading)
      ensures SearchTrigger(id).Some? ==> requests == [Request(SearchTrigger(id).value, filter)] && loading
      ensures forall r :: r in requests ==> r.query.Search? ==> r.query.orderId == Trim(id)
    {
      searchId := id;
      requests := [];
      var t := Trim(id);
      if |t| == 6 {
        requests := requests + [Request(Search(t), filter)];
        loading := true;
      }
      if t == [] {
        requests := requests + [Request(ListAll, filter)];
        loading := true;
      }
    }

    /** `handleFilter(status)`: set the filter, close the menu and request
        FilterQuery of the search box. A filter that actually changes also
        re-runs the `[filter]` effect, which requests the whole list: with a
        six-character search in the box both requests are made, and the one
        that completes last decides what is shown. */
    method HandleFilter(status: string) returns (requests: seq<Request>)
      modifies this
      ensures filter == status && !showFilter && loading
      ensures searchId == old(searchId) && orders == old(orders)
      ensures requests == [Request(FilterQuery(searchId), status)]
        + (if status != old(filter) then [Request(ListAll, status)] else [])
    {
      var changed := status != filter;
      filter := status;
      showFilter := false;
      var t := Trim(searchId);
      if |t| == 6 {
        requests := [Request(Search(t), status)];
      } else {
        requests := [Request(ListAll, status)];
      }
      loading := true;
      if changed {
        requests := requests + [MountRequest()];
      }
    }

    /** The completion of `fetchHistory(orderId, status)`: a search shows at
        most the one order found, a list shows the fetched history, both
        under the status filter; any failure shows nothing. */
    method Complete(request: Request, reply: Fetch<OrdersBody>)
      modifies this
      ensures reply.FetchFailed? ==> orders == []
      ensures reply.Fetched? && request.query.Search? ==> orders == SearchResult(reply.body.order, request.status)
      ensures reply.Fetched? && request.query.ListAll? ==> orders == WithStatus(FetchedList(reply.body), request.status)
      ensures !loading && searchId == old(searchId) && filter == old(filter) && showFilter == old(showFilter)
    {
      match reply {
        case FetchFailed =>
          orders := [];
        case Fetched(body) =>
          if request.query.Search? {
            var found := if body.order.Some? then [body.order.value] else [];
            orders := WithStatus(found, request.status);
          } else {
            orders := WithStatus(FetchedList(body), request.status);
          }
      }
      loading := false;
    }
  }
}
