/** The hand-out view of `Frontend/src/Components/Admin/GiveOrders.jsx`:
    the approved orders, or the one searched order when it is approved. */
module GiveOrders {
  import opened Common
  import opened Models
  import opened OrderSearch
  import opened OrderHistory

  /** `order && order.Status === 'approved' ? [order] : []`. */
  function ApprovedOnly(order: Option<Order>): (r: seq<Order>)
    ensures |r| <= 1
    ensures r != [] <==> order.Some? && order.value.status == "approved"
    ensures r != [] ==> r == [order.value]
  {
    if order.Some? && order.value.status == "approved" then [order.value] else []
  }

  /** A search here shows what the history view shows for the same order
      under the `approved` filter. */
  lemma ApprovedOnlyIsHistoryFilter(order: Option<Order>)
    ensures ApprovedOnly(order) == SearchResult(order, "approved")
  {
    var r := SearchResult(order, "approved");
    if r != [] {
      assert r == [order.value];
    }
  }

  class GiveOrdersPage {
    var orders: seq<Order>
    var loading: bool
    var searchId: string

    constructor ()
      ensures orders == [] && loading && searchId == ""
    {
      orders := [];
      loading := true;
      searchId := "";
    }

    /** The search box's `onSearch(id)`: remember the text and start what
        SearchTrigger says. */
    method OnSearch(id: string) returns (requests: seq<Query>)
      modifies this
      ensures searchId == id && orders == old(orders)
      ensures SearchTrigger(id).None? ==> requests == [] && loading == old(loading)
      ensures SearchTrigger(id).Some? ==> requests == [SearchTrigger(id).value] && loading
    {
      searchId := id;
      requests := [];
      var t := Text.Trim(id);
      if |t| == 6 {
        requests := requests + [Search(t)];
        loading := true;
      }
      if t == [] {
        requests := requests + [ListAll];
        loading := true;
      }
    }

    /** The completion of `fetchOrders(orderId)`: a search shows the order
        only when it is approved; the list shows what the approved-orders
        endpoint sent; any failure shows nothing. */
    method Complete(query: Query, reply: Fetch<OrdersBody>)
      modifies this
      ensures reply.FetchFailed? ==> orders == []
      ensures reply.Fetched? && query.Search? ==> orders == ApprovedOnly(reply.body.order)
      ensures reply.Fetched? && query.ListAll? ==> orders == FetchedList(reply.body)
      ensures query.Search? ==> |orders| <= 1 && forall o :: o in orders ==> o.status == "approved"
      ensures !loading && searchId == old(searchId)
    {
      match reply {
        case FetchFailed =>
          orders := [];
        case Fetched(body) =>
          if query.Search? {
            orders := ApprovedOnly(body.order);
          } else {
            orders := FetchedList(body);
          }
      }
      loading := false;
    }
  }
}
