/** The student's order list of `Frontend/src/Components/Public/My_Books.jsx`:
    the fetched orders, narrowed to the stored user name when there is one,
    then sorted newest first by the `DD-MM-YYYY` date each order carries. */
module MyBooks {
  import opened Common
  import opened Lists
  import opened Sorting
  import opened Models
  import opened OrderSearch
  import opened OrderHistory

  /** `if (userName) userOrders = userOrders.filter(o => o.User_Name === userName)`:
      a missing or empty name keeps everything. */
  function NameFilter(orders: seq<Order>, userName: Option<string>): (r: seq<Order>)
    ensures userName.None? || userName.value == [] ==> r == orders
    ensures userName.Some? && userName.value != [] ==>
      forall o :: o in r <==> o in orders && o.userName == userName.value
  {
    if userName.Some? && userName.value != [] then Filter(orders, (o: Order) => o.userName == userName.value)
    else orders
  }

  /** The user's orders keep their multiplicity; other users' orders are
      gone. */
  lemma NameFilterCount(orders: seq<Order>, userName: Option<string>, o: Order)
    ensures multiset(NameFilter(orders, userName))[o] ==
      if userName.None? || userName.value == [] || o.userName == userName.value then multiset(orders)[o] else 0
  {
    if userName.Some? && userName.value != [] {
      FilterCount(orders, (x: Order) => x.userName == userName.value, o);
    }
  }

  /** `new Date(y, ...)` reads a year from 0 to 99 as 1900 to 1999. */
  function JsYear(y: nat): (r: nat)
    ensures y <= 99 ==> r == 1900 + y
    ensures y > 99 ==> r == y
  {
    if y <= 99 then 1900 + y else y
  }

  /** The day an order's date denotes, as `(year, month, day)`; `None` when
      the date does not parse and `new Date` is invalid. */
  function DateKey(o: Order): (k: Option<DayMonthYear>)
    ensures k.Some? <==> ParseOrderDate(o.orderDate).Some?
    ensures k.Some? ==>
      && k.value.year == JsYear(ParseOrderDate(o.orderDate).value.year)
      && k.value.year >= 100
      && k.value.day == ParseOrderDate(o.orderDate).value.day
      && k.value.month == ParseOrderDate(o.orderDate).value.month
  {
    match ParseOrderDate(o.orderDate)
    case None => None
    case Some(d) => Some(DayMonthYear(d.day, d.month, JsYear(d.year)))
  }

  /** `a` is on the same day as `b` or later: year first, then month, then
      day. */
  predicate NotEarlier(a: DayMonthYear, b: DayMonthYear)
  {
    || a.year > b.year
    || (a.year == b.year && a.month > b.month)
    || (a.year == b.year && a.month == b.month && a.day >= b.day)
  }

  /** The comparator `dateB - dateA <= 0`: `a` may come before `b` when it is
      not older. An order whose date does not parse goes after every order
      whose date does. */
  predicate NewerFirst(a: Order, b: Order)
  {
    match (DateKey(a), DateKey(b))
    case (Some(da), Some(db)) => NotEarlier(da, db)
    case (Some(_), None) => true
    case (None, kb) => kb.None?
  }

  lemma NewerFirstOrder()
    ensures TotalPreorder(NewerFirst)
  {
    forall a: Order, b: Order ensures NewerFirst(a, b) || NewerFirst(b, a) {
    }
    forall a: Order, b: Order, c: Order | NewerFirst(a, b) && NewerFirst(b, c)
      ensures NewerFirst(a, c)
    {
    }
  }

  /** Among orders made by the schema, with four-digit years, the sort puts
      one first exactly when its creation day is not earlier. */
  lemma NewOrdersSortByDay(o1: Order, o2: Order, c1: Clock, c2: Clock)
    requires ValidClock(c1) && ValidClock(c2) && c1.fullYear > 99 && c2.fullYear > 99
    requires o1 == NewOrder(o1.orderId, o1.userName, o1.subjects, c1)
    requires o2 == NewOrder(o2.orderId, o2.userName, o2.subjects, c2)
    ensures NewerFirst(o1, o2) <==>
      NotEarlier(DayMonthYear(c1.date, c1.monthIndex + 1, c1.fullYear), DayMonthYear(c2.date, c2.monthIndex + 1, c2.fullYear))
  {
    assert DateKey(o1) == Some(DayMonthYear(c1.date, c1.monthIndex + 1, c1.fullYear));
    assert DateKey(o2) == Some(DayMonthYear(c2.date, c2.monthIndex + 1, c2.fullYear));
  }

  /** What the list shows after a successful fetch. */
  function MyOrders(list: seq<Order>, userName: Option<string>): seq<Order>
  {
    NewerFirstOrder();
    SortBy(NameFilter(list, userName), NewerFirst)
  }

  /** The list shows every order of the user exactly as often as it was
      fetched, no other user's order, newest first. */
  lemma MyOrdersShape(list: seq<Order>, userName: Option<string>, o: Order)
    ensures multiset(MyOrders(list, userName)) == multiset(NameFilter(list, userName))
    ensures multiset(MyOrders(list, userName))[o] ==
      if userName.None? || userName.value == [] || o.userName == userName.value then multiset(list)[o] else 0
    ensures SortedBy(MyOrders(list, userName), NewerFirst)
  {
    NameFilterCount(list, userName, o);
  }

  class MyBooksPage {
    var orders: seq<Order>
    var loading: bool

    constructor ()
      ensures orders == [] && loading
    {
      orders := [];
      loading := true;
    }

    /** `fetchOrders`: the name filter, then `userOrders.sort(...)` in place;
        a failed request shows nothing. */
    method FetchOrders(userName: Option<string>, reply: Fetch<OrdersBody>)
      modifies this
      ensures reply.FetchFailed? ==> orders == []
      ensures reply.Fetched? ==> orders == MyOrders(FetchedList(reply.body), userName)
      ensures reply.Fetched? ==>
        SortedBy(orders, NewerFirst) && multiset(orders) == multiset(NameFilter(FetchedList(reply.body), userName))
      ensures !loading
    {
      loading := true;
      match reply {
        case FetchFailed =>
          orders := [];
        case Fetched(body) =>
          var userOrders := NameFilter(FetchedList(body), userName);
          var a := new Order[|userOrders|](i requires 0 <= i < |userOrders| => userOrders[i]);
          assert a[..] == userOrders;
          NewerFirstOrder();
          SortInPlace(a, NewerFirst);
          orders := a[..];
      }
      loading := false;
    }
  }
}
