/** What the admin order views share: the body of the order endpoints as
    the client reads it, and the rule by which a typed order id starts a
    search. */
module OrderSearch {
  import opened Common
  import opened Text
  import opened Models

  /** `res.data`: the search endpoint answers with `order` (possibly null),
      the list endpoints with `orders`; a missing key is `None`. */
  datatype OrdersBody = OrdersBody(order: Option<Order>, orders: Option<seq<Order>>)

  /** The request a view makes: one order by id, or its whole list. */
  datatype Query = Search(orderId: string) | ListAll

  /** What the search box's `onSearch(id)` starts: a search for the trimmed
      id when it is exactly six characters long, the full list again when it
      is blank, and nothing otherwise. */
  function SearchTrigger(id: string): (q: Option<Query>)
    ensures q.Some? && q.value.Search? <==> |Trim(id)| == 6
    ensures q.Some? && q.value.Search? ==> q.value.orderId == Trim(id) && q.value.orderId != []
    ensures q == Some(ListAll) <==> IsBlank(id)
    ensures q.None? <==> |Trim(id)| != 6 && !IsBlank(id)
  {
    TrimEmptyIffBlank(id);
    var t := Trim(id);
    if |t| == 6 then Some(Search(t))
    else if t == [] then Some(ListAll)
    else None
  }

  /** The trigger sees only the trimmed id: typing the trimmed id starts
      the same request. */
  lemma SearchSeesTrimmedId(id: string)
    ensures SearchTrigger(Trim(id)) == SearchTrigger(id)
  {
    TrimIdempotent(id);
  }
}
