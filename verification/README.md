# Cart and wishlist state of the Lavs Boutique storefront script

The storefront script keeps two pieces of page-lifetime state, each mirrored
into the browser's key-value storage after every change:

- the **cart**, an ordered list of line items `{id, name, price, quantity}`
  changed in place by `addToCart`, `removeFromCart` and `updateQuantity`, read
  by the badge count (`updateCartCount`), the order summary
  (`updateCartSummary`) and the empty-cart guard of `proceedToCheckout`;
- the **wishlist**, an ordered list of product ids toggled by a delegated
  click listener on the wishlist buttons.

This project models both in Dafny and proves the properties the code relies on:
at most one entry per id and every quantity at least 1 are kept by every cart
mutation, removal keeps the order of the remaining entries, the badge count is
the sum of quantities and `addToCart` raises it by exactly one, the summary
arithmetic (free shipping strictly above 100.00, 8% tax), the stored copy
equals the in-memory copy after every write, and a wishlist toggle flips
membership (twice on an absent id restores the list exactly).

Layout:

- `wrappers.dfy` (module `Wrappers`): an `Option` type.
- `cart.dfy` (module `CartStore`): the line item, the invariants, `find` and
  `filter` as recursive functions, each cart operation as a function of the
  list, and the count and summary reductions.
- `cart_properties.dfy` (module `CartProperties`): lemmas about those functions.
- `cart_state.dfy` (module `CartState`): class `Cart` with the in-memory list
  and the `stored` snapshot; its methods change the list in place and are
  proved against the functions of `CartStore`.
- `wishlist.dfy` (module `WishlistStore`): the toggle as a function with its
  lemmas, and class `Wishlist` with the list, the snapshot and `Toggle`.

Modelling choices:

- Ids are a generic type with equality (`===` in the code). Cart ids come from
  numeric `onclick` arguments and wishlist ids from `dataset` strings; the model
  does not care which.
- Prices are integer cents (`int`, unchecked, as the code trusts its caller).
  The threshold "subtotal > 100" is `> 10000` cents, strict, and the flat fee is
  1000 cents. Tax and total are exact `real`s in cents: tax is exactly 8% of
  the subtotal.
- Storage is a field `stored: Option<seq<…>>`; `None` is a key that was never
  written. The constructor takes what was saved: an absent key gives the empty
  list and leaves `stored` as `None`. Loaded data is not checked by the code,
  so the invariants are stated as preserved (`old(WellFormed(items)) ==>
  WellFormed(items)`), not established at load.
- `updateQuantity` is modelled as the code runs it: it adds `change` to the
  first entry with the id and, if that gives zero or less, filters every entry
  with that id out of the bumped list. `UpdateToZeroIsRemove` proves this is
  the same as `removeFromCart` on the original list.
- The wishlist is a list, not a set, because the code treats it as one: `push`
  appends at the end, and `filter` drops every copy of the id.

## Model

| member | source | states |
|---|---|---|
| CartStore.Find | script.js:26 | the first index whose entry has the id; None exactly when no entry has it |
| CartStore.RemoveId | script.js:51 | no entry with the id remains, every entry without the id survives, every survivor is an original entry; never longer, and strictly shorter when the id was present |
| CartStore.AddItem | script.js:24-37 | present id: same length, that entry's quantity is one higher and its id, name and price are kept, every other entry unchanged; absent id: the old entries followed by one new entry `{id, name, price, 1}` |
| CartStore.UpdateItem | script.js:59-70 | absent id: unchanged; present id whose quantity plus change is at most 0: the id is gone and the list is shorter; otherwise only that entry's quantity changes, to old + change |
| CartStore.Count | script.js:74 | the sum of quantities; at least the number of entries when all quantities are positive |
| CartStore.Subtotal | script.js:132 | the sum of price × quantity; non-negative when prices are non-negative and quantities positive |
| CartStore.Shipping | script.js:133 | the fee is 0 or the flat 1000 cents, and 0 exactly when the subtotal is strictly above 10000 cents |
| CartStore.CartSummary | script.js:131-135 | subtotal is `Subtotal`, shipping is `Shipping(subtotal)`, tax is exactly 8% of the subtotal, total is subtotal + shipping + tax |
| CartProperties.RemoveIdAbsent | script.js:51 | removing an absent id leaves the list exactly as it was |
| CartProperties.RemoveIdConcat | script.js:51 | the filter distributes over concatenation, so the surviving entries keep their order |
| CartProperties.RemoveIdAt | script.js:51 | with unique ids, removing the id of entry k gives the list with exactly entry k cut out |
| CartProperties.RemoveIdKeepsMembers | script.js:51 | every entry of the filtered list is an entry of the original list |
| CartProperties.RemoveIdIgnoresBump | script.js:62-64 | filtering an id after changing the quantity of an entry with that id gives the same list as filtering without the change |
| CartProperties.UpdateToZeroIsRemove | script.js:62-64 | updateQuantity on a present id whose quantity drops to 0 or below has the same result as removeFromCart |
| CartProperties.RemoveIdUnique | script.js:51 | the filter keeps "at most one entry per id" |
| CartProperties.RemovePreservesWellFormed | script.js:51 | removeFromCart keeps unique ids and positive quantities |
| CartProperties.AddPreservesWellFormed | script.js:26-36 | addToCart keeps unique ids and positive quantities |
| CartProperties.UpdatePreservesWellFormed | script.js:60-64 | updateQuantity keeps unique ids and positive quantities, for any signed change |
| CartProperties.CountConcat | script.js:74 | the count of two lists joined is the sum of their counts |
| CartProperties.CountBump | script.js:62 | adding `change` to one entry's quantity moves the count by exactly `change` |
| CartProperties.AddCount | script.js:24-37 | addToCart raises the badge count by exactly 1, whether the id was present or not |
| CartProperties.RemoveCount | script.js:51 | with unique ids, removing a present id lowers the count by that entry's quantity; an absent id leaves it unchanged |
| CartProperties.UpdateCount | script.js:59-70 | with unique ids, updateQuantity moves the count by `change`, or by minus the old quantity when the entry is removed; an absent id leaves it unchanged |
| CartProperties.CountZeroIffEmpty | script.js:74 | with positive quantities the badge shows 0 exactly when the cart is empty, the case checkout refuses |
| CartProperties.SubtotalBump | script.js:132 | adding `change` to one entry's quantity moves the subtotal by its price × change |
| CartProperties.SubtotalConcat | script.js:132 | the subtotal of two lists joined is the sum of their subtotals |
| CartProperties.SubtotalAppend | script.js:132 | appending an entry adds its price × quantity to the subtotal |
| CartProperties.AddSubtotal | script.js:24-37 | addToCart raises the subtotal by one unit price: the stored price of the existing entry, or the given price for a new one |
| CartProperties.AddTwice | script.js:24-37 | adding a new product twice gives one entry of quantity 2 at the end, not two entries |
| CartProperties.ScarfExample | script.js:131-135 | a 45.00 scarf added twice: one entry of quantity 2, count 2, subtotal 90.00, shipping 10.00, tax 7.20, total 107.20 |
| CartState.Cart.constructor | script.js:6 | the cart loaded from storage is the saved list, or empty when the key is absent; the stored copy is what was saved |
| CartState.Cart.AddToCart | script.js:24-47 | the list becomes `AddItem` of the old list, the count rises by 1, the invariants are kept, and the stored copy equals the list |
| CartState.Cart.RemoveFromCart | script.js:50-56 | the list becomes `RemoveId` of the old list, the invariants are kept, and the stored copy equals the list |
| CartState.Cart.UpdateQuantity | script.js:59-70 | the list becomes `UpdateItem` of the old list and the invariants are kept; a present id ends with the stored copy equal to the list, an absent id writes nothing |
| CartState.Cart.ProceedToCheckout | script.js:144-150 | refused with the empty-cart error exactly when the cart has no entries |
| WishlistStore.Without | script.js:372 | the id no longer occurs, every other id keeps its membership; the list is strictly shorter when the id was there and unchanged when it was not |
| WishlistStore.Toggled | script.js:370-380 | the id's membership is flipped and every other id's is kept; an absent id is appended at the end after the unchanged list |
| WishlistStore.WithoutAbsent | script.js:372 | filtering an id that is not listed changes nothing |
| WishlistStore.WithoutConcat | script.js:372 | the filter distributes over concatenation, so the remaining ids keep their order |
| WishlistStore.ToggleTwiceAbsent | script.js:370-377 | toggling an absent id twice restores the list exactly |
| WishlistStore.ToggleTwicePresent | script.js:370-377 | toggling a present id twice removes all its copies and puts one at the end |
| WishlistStore.ToggleTwiceMembership | script.js:370-377 | two toggles of any id restore every id's membership |
| WishlistStore.WithoutNoDuplicates | script.js:372 | the filter keeps a list free of duplicates |
| WishlistStore.TogglePreservesNoDuplicates | script.js:370-377 | a toggle keeps a list free of duplicates, since the push happens only for an unlisted id |
| WishlistStore.Wishlist.constructor | script.js:362 | the loaded wishlist is the saved list, or empty when the key is absent |
| WishlistStore.Wishlist.Toggle | script.js:364-384 | the list becomes `Toggled` of the old list, `added` is true exactly when the id was absent, a list without duplicates stays so, and the stored copy equals the list |
| WishlistStore.Wishlist.Contains | script.js:370 | true exactly when some position of the list holds the id |

## Left out

- DOM rendering and DOM writes: `renderCart`, the badge writes in `updateCartCount`, the summary writes and `toFixed` formatting in `updateCartSummary`, the wishlist button colouring and the page-load marking of wishlisted cards. They are presentation only.
- `showNotification` (the toast and its timer), `alert` in checkout, `observeElements`, the search prompt, `clearFilters`, `scrollToTop` and `formatCurrency`: timers, observers, dialogs and DOM mutation with no state of the stores. `Wishlist.Toggle` returns which confirmation message is shown instead.
- `handleContactSubmit` and `subscribeNewsletter`: simulated form submissions with no store state.
- `applyPromoCode`: a DOM-bound table lookup whose result is never applied to the totals.
- Storage and JSON I/O themselves: storage is an abstract snapshot. Malformed saved JSON makes the code throw at load; the model only covers a saved list or an absent key.
- The click listener's DOM lookups (`closest`, `dataset.productId`): the product id is a parameter of `Toggle`. A click outside a product card, which makes the code throw, is not modelled.
- Floating-point behaviour: prices are integer cents and tax is exact, so the binary rounding of `subtotal * 0.08` and of the sums is not captured.
- Object identity: `find` returns a reference into the array and `quantity += …` changes that object. No other reference to cart entries exists in the code, so the model updates a value in a sequence instead.
