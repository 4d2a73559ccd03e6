/** The shopping cart of the storefront as a list of line items: what
    `addToCart`, `removeFromCart` and `updateQuantity` do to it, stated as
    functions of the list, and the two reductions that read it (the badge
    count and the order summary). The mutable cart itself is in CartState. */
module CartStore {
  import opened Wrappers

  /** One line of the cart. `price` is the unit price in integer cents. */
  datatype Item<Id> = Item(id: Id, name: string, price: int, quantity: int)

  /** Orders above this subtotal (in cents) ship for free; exactly this much still pays. */
  const FreeShippingAbove: int := 10000
  /** Flat shipping fee in cents. */
  const FlatShipping: int := 1000
  /** Sales tax rate, 8%. */
  const TaxRate: real := 0.08

  // ---------------------------------------------------------------------------
  // Invariants of the cart list
  // ---------------------------------------------------------------------------

  predicate HasId<Id(==)>(items: seq<Item<Id>>, id: Id)
  {
    exists i :: 0 <= i < |items| && items[i].id == id
  }

  /** At most one entry per id. */
  predicate UniqueIds<Id(==)>(items: seq<Item<Id>>)
  {
    forall i, j :: 0 <= i < j < |items| ==> items[i].id != items[j].id
  }

  /** No entry with a quantity of zero or less. */
  predicate PositiveQuantities<Id>(items: seq<Item<Id>>)
  {
    forall i :: 0 <= i < |items| ==> items[i].quantity >= 1
  }

  predicate WellFormed<Id(==)>(items: seq<Item<Id>>)
  {
    UniqueIds(items) && PositiveQuantities(items)
  }

  // ---------------------------------------------------------------------------
  // Library operations the code relies on: `find` and `filter`
  // ---------------------------------------------------------------------------

  /** `cart.find(item => item.id === id)`: the index of the FIRST entry with
      this id, or None when there is none. */
  function Find<Id(==)>(items: seq<Item<Id>>, id: Id): (r: Option<nat>)
    ensures r.None? <==> !HasId(items, id)
    ensures r.Some? ==> r.value < |items| && items[r.value].id == id
    ensures r.Some? ==> forall i :: 0 <= i < r.value ==> items[i].id != id
  {
    if |items| == 0 then None
    else if items[0].id == id then Some(0)
    else match Find(items[1..], id)
      case None => None
      case Some(k) => Some(k + 1)
  }

  /** `cart.filter(item => item.id !== id)`: every entry with this id dropped,
      the others kept. That the survivors also keep their order is stated by
      CartProperties.RemoveIdAbsent with CartProperties.RemoveIdConcat. */
  function RemoveId<Id(==)>(items: seq<Item<Id>>, id: Id): (r: seq<Item<Id>>)
    ensures |r| <= |items|
    ensures HasId(items, id) ==> |r| < |items|
    ensures !HasId(r, id)
    ensures forall i :: 0 <= i < |r| ==> r[i] in items
    ensures forall i :: 0 <= i < |items| && items[i].id != id ==> items[i] in r
  {
    if |items| == 0 then []
    else if items[0].id == id then RemoveId(items[1..], id)
    else [items[0]] + RemoveId(items[1..], id)
  }

  // ---------------------------------------------------------------------------
  // The cart operations as functions of the list
  // ---------------------------------------------------------------------------

  /** `addToCart(id, name, price)`: the first entry with this id gets one more
      unit (its name and price are kept); otherwise a new entry of quantity 1 is
      appended. */
  function AddItem<Id(==)>(items: seq<Item<Id>>, id: Id, name: string, price: int): (r: seq<Item<Id>>)
    ensures HasId(items, id) ==>
      |r| == |items| &&
      var k := Find(items, id).value;
      r[k].id == items[k].id && r[k].name == items[k].name && r[k].price == items[k].price &&
      r[k].quantity == items[k].quantity + 1 &&
      forall i :: 0 <= i < |items| && i != k ==> r[i] == items[i]
    ensures !HasId(items, id) ==>
      |r| == |items| + 1 && r[..|items|] == items && r[|items|] == Item(id, name, price, 1)
  {
    match Find(items, id)
    case Some(k) => items[k := items[k].(quantity := items[k].quantity + 1)]
    case None => items + [Item(id, name, price, 1)]
  }

  /** The list right after `item.quantity += change` on the first entry with
      this id (still unfiltered). */
  function Bumped<Id(==)>(items: seq<Item<Id>>, k: nat, change: int): (r: seq<Item<Id>>)
    requires k < |items|
  {
    items[k := items[k].(quantity := items[k].quantity + change)]
  }

  /** `updateQuantity(id, change)`: nothing happens for an absent id; otherwise
      the first entry with this id has `change` added to its quantity, and when
      the result is zero or less `removeFromCart(id)` filters the bumped list. */
  function UpdateItem<Id(==)>(items: seq<Item<Id>>, id: Id, change: int): (r: seq<Item<Id>>)
    ensures !HasId(items, id) ==> r == items
    ensures HasId(items, id) ==>
      var k := Find(items, id).value;
      if items[k].quantity + change <= 0 then
        !HasId(r, id) && |r| < |items|
      else
        |r| == |items| && r[k].quantity == items[k].quantity + change &&
        r[k].id == id && r[k].name == items[k].name && r[k].price == items[k].price &&
        forall i :: 0 <= i < |items| && i != k ==> r[i] == items[i]
  {
    match Find(items, id)
    case None => items
    case Some(k) =>
      var bumped := Bumped(items, k, change);
      if bumped[k].quantity <= 0 then
        assert bumped[k] in bumped && bumped[k].id == id;
        RemoveId(bumped, id)
      else bumped
  }

  // ---------------------------------------------------------------------------
  // Reductions read by the page
  // ---------------------------------------------------------------------------

  /** `cart.reduce((sum, item) => sum + item.quantity, 0)`: the badge count. */
  function Count<Id>(items: seq<Item<Id>>): (n: int)
    ensures PositiveQuantities(items) ==> n >= |items|
  {
    if |items| == 0 then 0 else items[0].quantity + Count(items[1..])
  }

  /** `cart.reduce((sum, item) => sum + item.price * item.quantity, 0)`, in cents. */
  function Subtotal<Id>(items: seq<Item<Id>>): (s: int)
    ensures (forall i :: 0 <= i < |items| ==> items[i].price >= 0) && PositiveQuantities(items) ==> s >= 0
  {
    if |items| == 0 then 0 else items[0].price * items[0].quantity + Subtotal(items[1..])
  }

  /** Shipping fee in cents for a subtotal in cents. */
  function Shipping(subtotal: int): (fee: int)
    ensures fee == 0 || fee == FlatShipping
    ensures fee == 0 <==> subtotal > FreeShippingAbove
  {
    if subtotal > FreeShippingAbove then 0 else FlatShipping
  }

  /** The figures `updateCartSummary` shows, in cents; tax and total are exact. */
  datatype Summary = Summary(subtotal: int, shipping: int, tax: real, total: real)

  function CartSummary<Id>(items: seq<Item<Id>>): (r: Summary)
    ensures r.subtotal == Subtotal(items)
    ensures r.shipping == Shipping(r.subtotal)
    ensures r.tax * 100.0 == 8.0 * r.subtotal as real
    ensures r.total == r.subtotal as real + r.shipping as real + r.tax
  {
    var subtotal := Subtotal(items);
    var shipping := Shipping(subtotal);
    var tax := subtotal as real * TaxRate;
    Summary(subtotal, shipping, tax, subtotal as real + shipping as real + tax)
  }
}
