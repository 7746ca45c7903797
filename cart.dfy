/** The cart page of `Frontend/src/Components/Public/Cart.jsx` and the
    `cartItems` entry of `localStorage` it shares with the book list. */
module Cart {
  import opened Common
  import opened Lists
  import opened Models

  /** The `cartItems` key of `localStorage`, as the list it holds: the
      application only ever writes `JSON.stringify` of an array there, or
      removes the key. */
  class CartStorage {
    var cartItems: Option<seq<Subject>>

    constructor (stored: Option<seq<Subject>>)
      ensures cartItems == stored
    {
      cartItems := stored;
    }
  }

  /** No two cart entries share a code. */
  predicate DistinctCodes(items: seq<Subject>)
  {
    forall i, j :: 0 <= i < j < |items| ==> items[i].code != items[j].code
  }

  /** `cartItems.filter((item) => item.code !== code)`. */
  function RemoveCode(items: seq<Subject>, code: string): (r: seq<Subject>)
    ensures forall x :: x in r <==> x in items && x.code != code
  {
    Filter(items, (item: Subject) => item.code != code)
  }

  /** Removal works piece by piece, so the remaining entries keep their
      original order. */
  lemma RemoveKeepsOrder(s: seq<Subject>, t: seq<Subject>, code: string)
    ensures RemoveCode(s + t, code) == RemoveCode(s, code) + RemoveCode(t, code)
  {
    FilterConcat(s, t, (item: Subject) => item.code != code);
  }

  /** Every entry with the code is gone; every other entry keeps its
      multiplicity. */
  lemma RemoveCount(items: seq<Subject>, code: string, x: Subject)
    ensures multiset(RemoveCode(items, code))[x] == if x.code == code then 0 else multiset(items)[x]
  {
    FilterCount(items, (item: Subject) => item.code != code, x);
  }

  /** Removing the same code again changes nothing. */
  lemma RemoveIdempotent(items: seq<Subject>, code: string)
    ensures RemoveCode(RemoveCode(items, code), code) == RemoveCode(items, code)
  {
    FilterIdempotent(items, (item: Subject) => item.code != code);
  }

  /** Removing a code the cart does not hold leaves it as it was. */
  lemma RemoveAbsent(items: seq<Subject>, code: string)
    requires forall x :: x in items ==> x.code != code
    ensures RemoveCode(items, code) == items
  {
    FilterAllPass(items, (item: Subject) => item.code != code);
  }

  class CartPage {
    var cartItems: seq<Subject>
    var showCheckoutOverlay: bool

    /** The displayed cart and the stored one agree; an absent key is an
        empty cart. */
    ghost predicate InSync(storage: CartStorage)
      reads this, storage
    {
      storage.cartItems == Some(cartItems) || (storage.cartItems == None && cartItems == [])
    }

    /** The mount effect: a stored cart is shown, otherwise the empty one. */
    constructor (storage: CartStorage)
      ensures cartItems == (if storage.cartItems.Some? then storage.cartItems.value else [])
      ensures !showCheckoutOverlay
      ensures InSync(storage)
    {
      cartItems := if storage.cartItems.Some? then storage.cartItems.value else [];
      showCheckoutOverlay := false;
    }

    /** `handleRemove`: drop every entry with the code, show the rest and
        store exactly what is shown. */
    method HandleRemove(code: string, storage: CartStorage)
      modifies this, storage
      ensures cartItems == RemoveCode(old(cartItems), code)
      ensures storage.cartItems == Some(cartItems)
      ensures InSync(storage)
      ensures showCheckoutOverlay == old(showCheckoutOverlay)
    {
      var updated := RemoveCode(cartItems, code);
      cartItems := updated;
      storage.cartItems := Some(updated);
    }

    /** The checkout button is disabled on an empty cart. */
    predicate CheckoutDisabled()
      reads this
    {
      |cartItems| == 0
    }

    /** `handleCheckout`: empty the cart, delete the stored key, show the
        confirmation. */
    method HandleCheckout(storage: CartStorage)
      modifies this, storage
      ensures cartItems == [] && storage.cartItems == None
      ensures InSync(storage)
      ensures showCheckoutOverlay
    {
      cartItems := [];
      storage.cartItems := None;
      showCheckoutOverlay := true;
    }
  }
}
