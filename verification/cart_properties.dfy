/** Properties of the cart operations: order kept by removal, the invariants
    "at most one entry per id" and "every quantity at least 1" preserved by
    every mutation, the badge count and the subtotal under each operation, and
    the worked example of a scarf added twice. */
module CartProperties {
  import opened Wrappers
  import opened CartStore

  // ---------------------------------------------------------------------------
  // removeFromCart: a filter that keeps order
  // ---------------------------------------------------------------------------

  /** Removing an absent id leaves the cart exactly as it was. */
  lemma {:induction false} RemoveIdAbsent<Id>(items: seq<Item<Id>>, id: Id)
    requires !HasId(items, id)
    ensures RemoveId(items, id) == items
  {
    if |items| > 0 {
      assert !HasId(items[1..], id) by {
        forall i | 0 <= i < |items[1..]| ensures items[1..][i].id != id {
          assert items[1..][i] == items[i + 1];
        }
      }
      RemoveIdAbsent(items[1..], id);
    }
  }

  /** Filtering distributes over concatenation, so the survivors keep their order. */
  lemma {:induction false} RemoveIdConcat<Id>(a: seq<Item<Id>>, b: seq<Item<Id>>, id: Id)
    ensures RemoveId(a + b, id) == RemoveId(a, id) + RemoveId(b, id)
  {
    if |a| == 0 {
      assert a + b == b;
    } else {
      assert (a + b)[0] == a[0];
      assert (a + b)[1..] == a[1..] + b;
      RemoveIdConcat(a[1..], b, id);
    }
  }

  lemma SplitAt<T>(s: seq<T>, k: nat)
    requires k < |s|
    ensures s == s[..k] + ([s[k]] + s[k + 1..])
  {
    assert s[k..] == [s[k]] + s[k + 1..];
    assert s == s[..k] + s[k..];
  }

  /** In a cart with one entry per id, removing the id of entry k cuts out
      exactly that entry and keeps every other one in its place in the order. */
  lemma RemoveIdAt<Id>(items: seq<Item<Id>>, k: nat, id: Id)
    requires UniqueIds(items)
    requires k < |items| && items[k].id == id
    ensures RemoveId(items, id) == items[..k] + items[k + 1..]
  {
    var pre, mid, post := items[..k], [items[k]], items[k + 1..];
    assert !HasId(pre, id) by {
      forall i | 0 <= i < |pre| ensures pre[i].id != id {
        assert pre[i] == items[i];
      }
    }
    assert !HasId(post, id) by {
      forall i | 0 <= i < |post| ensures post[i].id != id {
        assert post[i] == items[k + 1 + i];
      }
    }
    RemoveIdAbsent(pre, id);
    RemoveIdAbsent(post, id);
    assert RemoveId(mid, id) == [] by {
      assert mid[1..] == [];
    }
    SplitAt(items, k);
    RemoveIdConcat(mid, post, id);
    RemoveIdConcat(pre, mid + post, id);
  }

  /** Filtering out an id does not see what was done to an entry with that id:
      `removeFromCart` after `item.quantity += change` gives the same list as
      `removeFromCart` alone. */
  lemma {:induction false} RemoveIdIgnoresBump<Id>(items: seq<Item<Id>>, k: nat, change: int, id: Id)
    requires k < |items| && items[k].id == id
    ensures RemoveId(Bumped(items, k, change), id) == RemoveId(items, id)
  {
    var b := Bumped(items, k, change);
    if k > 0 {
      assert b[1..] == Bumped(items[1..], k - 1, change);
      RemoveIdIgnoresBump(items[1..], k - 1, change, id);
    } else {
      assert b[1..] == items[1..];
    }
  }

  /** updateQuantity on a present id whose quantity drops to zero or below has
      the same result as removeFromCart. */
  lemma UpdateToZeroIsRemove<Id>(items: seq<Item<Id>>, id: Id, change: int)
    requires HasId(items, id)
    requires items[Find(items, id).value].quantity + change <= 0
    ensures UpdateItem(items, id, change) == RemoveId(items, id)
  {
    RemoveIdIgnoresBump(items, Find(items, id).value, change, id);
  }

  // ---------------------------------------------------------------------------
  // Invariants preserved by every mutation
  // ---------------------------------------------------------------------------

  /** Every entry that survives the filter was an entry of the original list. */
  lemma {:induction false} RemoveIdKeepsMembers<Id>(items: seq<Item<Id>>, id: Id, j: nat)
    requires j < |RemoveId(items, id)|
    ensures exists m :: 0 <= m < |items| && items[m] == RemoveId(items, id)[j]
  {
    if items[0].id == id {
      RemoveIdKeepsMembers(items[1..], id, j);
      var m :| 0 <= m < |items[1..]| && items[1..][m] == RemoveId(items[1..], id)[j];
      assert items[m + 1] == items[1..][m];
    } else if j > 0 {
      RemoveIdKeepsMembers(items[1..], id, j - 1);
      var m :| 0 <= m < |items[1..]| && items[1..][m] == RemoveId(items[1..], id)[j - 1];
      assert items[m + 1] == items[1..][m];
    } else {
      assert items[0] == RemoveId(items, id)[0];
    }
  }

  lemma UniqueTail<Id>(items: seq<Item<Id>>)
    requires UniqueIds(items) && |items| > 0
    ensures UniqueIds(items[1..])
    ensures forall m :: 0 <= m < |items[1..]| ==> items[1..][m].id != items[0].id
  {
    var tail := items[1..];
    forall i, j | 0 <= i < j < |tail| ensures tail[i].id != tail[j].id {
      assert tail[i] == items[i + 1] && tail[j] == items[j + 1];
    }
    forall m | 0 <= m < |tail| ensures tail[m].id != items[0].id {
      assert tail[m] == items[m + 1];
    }
  }

  /** Putting an entry in front of a list keeps the ids unique when its id is new. */
  lemma ConsUnique<Id>(x: Item<Id>, rest: seq<Item<Id>>)
    requires UniqueIds(rest)
    requires forall j :: 0 <= j < |rest| ==> rest[j].id != x.id
    ensures UniqueIds([x] + rest)
  {
    var r := [x] + rest;
    forall i, j | 0 <= i < j < |r| ensures r[i].id != r[j].id {
      assert r[j] == rest[j - 1];
      if i > 0 {
        assert r[i] == rest[i - 1];
      }
    }
  }

  lemma {:induction false} RemoveIdUnique<Id>(items: seq<Item<Id>>, id: Id)
    requires UniqueIds(items)
    ensures UniqueIds(RemoveId(items, id))
  {
    if |items| > 0 {
      var tail := items[1..];
      UniqueTail(items);
      RemoveIdUnique(tail, id);
      if items[0].id != id {
        var rest := RemoveId(tail, id);
        forall j | 0 <= j < |rest| ensures rest[j].id != items[0].id {
          RemoveIdKeepsMembers(tail, id, j);
        }
        ConsUnique(items[0], rest);
      }
    }
  }

  lemma RemovePreservesWellFormed<Id>(items: seq<Item<Id>>, id: Id)
    requires WellFormed(items)
    ensures WellFormed(RemoveId(items, id))
  {
    RemoveIdUnique(items, id);
    var r := RemoveId(items, id);
    forall i | 0 <= i < |r| ensures r[i].quantity >= 1 {
      RemoveIdKeepsMembers(items, id, i);
    }
  }

  /** addToCart never creates a second entry for an id and never a quantity below 1. */
  lemma AddPreservesWellFormed<Id>(items: seq<Item<Id>>, id: Id, name: string, price: int)
    requires WellFormed(items)
    ensures WellFormed(AddItem(items, id, name, price))
  {
    var r := AddItem(items, id, name, price);
    if !HasId(items, id) {
      forall i, j | 0 <= i < j < |r| ensures r[i].id != r[j].id {
        assert r[i] == items[i];
        if j < |items| {
          assert r[j] == items[j];
        }
      }
    }
  }

  lemma UpdatePreservesWellFormed<Id>(items: seq<Item<Id>>, id: Id, change: int)
    requires WellFormed(items)
    ensures WellFormed(UpdateItem(items, id, change))
  {
    if HasId(items, id) {
      var k := Find(items, id).value;
      if items[k].quantity + change <= 0 {
        UpdateToZeroIsRemove(items, id, change);
        RemovePreservesWellFormed(items, id);
      }
    }
  }

  // ---------------------------------------------------------------------------
  // The badge count
  // ---------------------------------------------------------------------------

  lemma {:induction false} CountConcat<Id>(a: seq<Item<Id>>, b: seq<Item<Id>>)
    ensures Count(a + b) == Count(a) + Count(b)
  {
    if |a| == 0 {
      assert a + b == b;
    } else {
      assert (a + b)[1..] == a[1..] + b;
      CountConcat(a[1..], b);
    }
  }

  /** Adding `change` to one entry's quantity moves the count by `change`. */
  lemma {:induction false} CountBump<Id>(items: seq<Item<Id>>, k: nat, change: int)
    requires k < |items|
    ensures Count(Bumped(items, k, change)) == Count(items) + change
  {
    var b := Bumped(items, k, change);
    if k > 0 {
      assert b[1..] == Bumped(items[1..], k - 1, change);
      CountBump(items[1..], k - 1, change);
    } else {
      assert b[1..] == items[1..];
    }
  }

  /** addToCart always raises the badge count by exactly one. */
  lemma AddCount<Id>(items: seq<Item<Id>>, id: Id, name: string, price: int)
    ensures Count(AddItem(items, id, name, price)) == Count(items) + 1
  {
    match Find(items, id)
    case Some(k) =>
      assert AddItem(items, id, name, price) == Bumped(items, k, 1);
      CountBump(items, k, 1);
    case None =>
      CountConcat(items, [Item(id, name, price, 1)]);
  }

  /** With one entry per id, removing a present id lowers the count by that
      entry's quantity; an absent id leaves it as it was. */
  lemma RemoveCount<Id>(items: seq<Item<Id>>, id: Id)
    requires UniqueIds(items)
    ensures HasId(items, id) ==>
      Count(RemoveId(items, id)) == Count(items) - items[Find(items, id).value].quantity
    ensures !HasId(items, id) ==> Count(RemoveId(items, id)) == Count(items)
  {
    match Find(items, id)
    case Some(k) =>
      RemoveIdAt(items, k, id);
      SplitAt(items, k);
      CountConcat([items[k]], items[k + 1..]);
      CountConcat(items[..k], [items[k]] + items[k + 1..]);
      CountConcat(items[..k], items[k + 1..]);
    case None =>
      RemoveIdAbsent(items, id);
  }

  /** updateQuantity moves the count by `change`, except that an entry pushed to
      zero or below leaves with its whole former quantity. */
  lemma UpdateCount<Id>(items: seq<Item<Id>>, id: Id, change: int)
    requires UniqueIds(items)
    ensures HasId(items, id) ==>
      var q := items[Find(items, id).value].quantity;
      Count(UpdateItem(items, id, change)) == Count(items) + (if q + change <= 0 then -q else change)
    ensures !HasId(items, id) ==> Count(UpdateItem(items, id, change)) == Count(items)
  {
    if HasId(items, id) {
      var k := Find(items, id).value;
      if items[k].quantity + change <= 0 {
        UpdateToZeroIsRemove(items, id, change);
        RemoveCount(items, id);
      } else {
        CountBump(items, k, change);
      }
    }
  }

  /** In a cart whose quantities are all positive the badge shows 0 exactly
      when the cart is empty, that is, exactly when checkout is refused. */
  lemma CountZeroIffEmpty<Id>(items: seq<Item<Id>>)
    requires PositiveQuantities(items)
    ensures Count(items) == 0 <==> |items| == 0
  {
  }

  // ---------------------------------------------------------------------------
  // The summary
  // ---------------------------------------------------------------------------

  lemma {:induction false} SubtotalBump<Id>(items: seq<Item<Id>>, k: nat, change: int)
    requires k < |items|
    ensures Subtotal(Bumped(items, k, change)) == Subtotal(items) + items[k].price * change
  {
    var b := Bumped(items, k, change);
    if k > 0 {
      assert b[1..] == Bumped(items[1..], k - 1, change);
      SubtotalBump(items[1..], k - 1, change);
    } else {
      assert b[1..] == items[1..];
      var p, q := items[0].price, items[0].quantity;
      assert p * (q + change) == p * q + p * change;
    }
  }

  lemma {:induction false} SubtotalConcat<Id>(a: seq<Item<Id>>, b: seq<Item<Id>>)
    ensures Subtotal(a + b) == Subtotal(a) + Subtotal(b)
  {
    if |a| == 0 {
      assert a + b == b;
    } else {
      assert (a + b)[1..] == a[1..] + b;
      SubtotalConcat(a[1..], b);
    }
  }

  lemma SubtotalAppend<Id>(items: seq<Item<Id>>, x: Item<Id>)
    ensures Subtotal(items + [x]) == Subtotal(items) + x.price * x.quantity
  {
    var single := [x];
    assert single[1..] == [];
    SubtotalConcat(items, single);
  }

  /** addToCart raises the subtotal by one unit price: the stored price of the
      existing entry when the id is present, the given price otherwise. */
  lemma AddSubtotal<Id>(items: seq<Item<Id>>, id: Id, name: string, price: int)
    ensures HasId(items, id) ==>
      Subtotal(AddItem(items, id, name, price)) == Subtotal(items) + items[Find(items, id).value].price
    ensures !HasId(items, id) ==>
      Subtotal(AddItem(items, id, name, price)) == Subtotal(items) + price
  {
    var r := AddItem(items, id, name, price);
    if HasId(items, id) {
      var k := Find(items, id).value;
      assert r == Bumped(items, k, 1);
      SubtotalBump(items, k, 1);
    } else {
      assert r == items + [Item(id, name, price, 1)];
      SubtotalAppend(items, Item(id, name, price, 1));
    }
  }

  // ---------------------------------------------------------------------------
  // Adding the same product twice
  // ---------------------------------------------------------------------------

  /** Adding a new product twice gives one entry of quantity 2 at the end, not two entries. */
  lemma AddTwice<Id>(items: seq<Item<Id>>, id: Id, name: string, price: int)
    requires !HasId(items, id)
    ensures AddItem(AddItem(items, id, name, price), id, name, price) == items + [Item(id, name, price, 2)]
  {
    var once := AddItem(items, id, name, price);
    assert once == items + [Item(id, name, price, 1)];
    assert Find(once, id) == Some(|items|);
  }

  /** The scarf example: two adds of a 45.00 scarf give quantity 2, a count
      of 2, a subtotal of 90.00, shipping 10.00, tax 7.20 and a total of 107.20. */
  lemma ScarfExample()
    ensures var c := AddItem(AddItem([], 1, "Scarf", 4500), 1, "Scarf", 4500);
      c == [Item(1, "Scarf", 4500, 2)] &&
      Count(c) == 2 &&
      CartSummary(c) == Summary(9000, 1000, 720.0, 10720.0)
  {
    var empty: seq<Item<int>> := [];
    AddTwice(empty, 1, "Scarf", 4500);
    var c := [Item(1, "Scarf", 4500, 2)];
    assert c[1..] == [];
    assert Subtotal(c) == 9000;
    assert Count(c) == 2;
  }
}
