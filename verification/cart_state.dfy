/** The module-level `cart` array of the page and its copy in the browser's
    storage under the key "cart". Each mutator changes the list in place and
    ends by writing it to storage, modelled by the `stored` snapshot field. */
module CartState {
  import opened Wrappers
  import opened CartStore
  import CartProperties

  /** What `proceedToCheckout` does: refuse an empty cart with an error
      notification, otherwise go on to the (demo) checkout. */
  datatype Checkout = EmptyCartError | Proceeding

  class Cart<Id(==)> {
    /** The in-memory `cart` array. */
    var items: seq<Item<Id>>
    /** The value last written under the storage key "cart"; None while the key is absent. */
    var stored: Option<seq<Item<Id>>>

    /** Synchronised with storage: the stored copy is the in-memory one. */
    predicate Synced()
      reads this
    {
      stored == Some(items)
    }

    /** Page load: `JSON.parse(localStorage.getItem('cart')) || []`; an absent
        key gives the empty cart and is not written back. The loaded list is
        not checked, so WellFormed is kept by the mutators, not established here. */
    constructor (saved: Option<seq<Item<Id>>>)
      ensures items == saved.GetOr([])
      ensures stored == saved
    {
      items := saved.GetOr([]);
      stored := saved;
    }

    method AddToCart(id: Id, name: string, price: int)
      modifies this
      ensures items == AddItem(old(items), id, name, price)
      ensures Count(items) == Count(old(items)) + 1
      ensures old(WellFormed(items)) ==> WellFormed(items)
      ensures Synced()
    {
      ghost var before := items;
      var found := Find(items, id);
      match found {
        case Some(k) =>
          items := items[k := items[k].(quantity := items[k].quantity + 1)];
        case None =>
          items := items + [Item(id, name, price, 1)];
      }
      stored := Some(items);
      CartProperties.AddCount(before, id, name, price);
      if WellFormed(before) {
        CartProperties.AddPreservesWellFormed(before, id, name, price);
      }
    }

    method RemoveFromCart(id: Id)
      modifies this
      ensures items == RemoveId(old(items), id)
      ensures old(WellFormed(items)) ==> WellFormed(items)
      ensures Synced()
    {
      ghost var before := items;
      items := RemoveId(items, id);
      stored := Some(items);
      if WellFormed(before) {
        CartProperties.RemovePreservesWellFormed(before, id);
      }
    }

    method UpdateQuantity(id: Id, change: int)
      modifies this
      ensures items == UpdateItem(old(items), id, change)
      ensures old(WellFormed(items)) ==> WellFormed(items)
      ensures HasId(old(items), id) ==> Synced()
      ensures !HasId(old(items), id) ==> stored == old(stored)
    {
      ghost var before := items;
      var found := Find(items, id);
      if found.Some? {
        var k := found.value;
        items := items[k := items[k].(quantity := items[k].quantity + change)];
        if items[k].quantity <= 0 {
          RemoveFromCart(id);
        } else {
          stored := Some(items);
        }
      }
      if WellFormed(before) {
        CartProperties.UpdatePreservesWellFormed(before, id, change);
      }
    }

    /** `proceedToCheckout`: reads the cart, changes nothing. */
    method ProceedToCheckout() returns (r: Checkout)
      ensures r == EmptyCartError <==> |items| == 0
    {
      if |items| == 0 {
        r := EmptyCartError;
      } else {
        r := Proceeding;
      }
    }
  }
}
