/** The wishlist of the storefront: the ordered list of product ids that the
    delegated click listener on `.wishlist-btn` toggles, written to the
    browser's storage under the key "wishlist" after every toggle. */
module WishlistStore {
  import opened Wrappers

  /** `wishlist.filter(x => x !== id)`: every copy of `id` dropped, the rest kept in order. */
  function Without<Id(==,!new)>(ids: seq<Id>, id: Id): (r: seq<Id>)
    ensures id !in r
    ensures |r| <= |ids|
    ensures id in ids ==> |r| < |ids|
    ensures id !in ids ==> r == ids
    ensures forall x :: x in r <==> x in ids && x != id
  {
    if |ids| == 0 then []
    else if ids[0] == id then Without(ids[1..], id)
    else [ids[0]] + Without(ids[1..], id)
  }

  /** The state change of one click: a present id is filtered out, an absent
      one is pushed at the end. */
  function Toggled<Id(==,!new)>(ids: seq<Id>, id: Id): (r: seq<Id>)
    ensures id in r <==> id !in ids
    ensures forall x :: x != id ==> (x in r <==> x in ids)
    ensures id !in ids ==> |r| == |ids| + 1 && r[..|ids|] == ids && r[|ids|] == id
  {
    if id in ids then Without(ids, id) else ids + [id]
  }

  /** No id listed twice. */
  predicate NoDuplicates<Id(==,!new)>(ids: seq<Id>)
  {
    forall i, j :: 0 <= i < j < |ids| ==> ids[i] != ids[j]
  }

  /** Filtering an id that is not there changes nothing. */
  lemma {:induction false} WithoutAbsent<Id(!new)>(ids: seq<Id>, id: Id)
    requires id !in ids
    ensures Without(ids, id) == ids
  {
    if |ids| > 0 {
      assert ids[0] != id;
      assert id !in ids[1..];
      WithoutAbsent(ids[1..], id);
    }
  }

  /** Filtering distributes over concatenation: the survivors keep their order. */
  lemma {:induction false} WithoutConcat<Id(!new)>(a: seq<Id>, b: seq<Id>, id: Id)
    ensures Without(a + b, id) == Without(a, id) + Without(b, id)
  {
    if |a| == 0 {
      assert a + b == b;
    } else {
      assert (a + b)[0] == a[0];
      assert (a + b)[1..] == a[1..] + b;
      WithoutConcat(a[1..], b, id);
    }
  }

  /** Toggling an absent id twice restores the list exactly. */
  lemma ToggleTwiceAbsent<Id(!new)>(ids: seq<Id>, id: Id)
    requires id !in ids
    ensures Toggled(Toggled(ids, id), id) == ids
  {
    var once := ids + [id];
    assert Toggled(ids, id) == once;
    WithoutConcat(ids, [id], id);
    WithoutAbsent(ids, id);
    assert Without([id], id) == [] by {
      assert [id][1..] == [];
    }
  }

  /** Toggling a present id twice removes all its copies and puts one back at
      the end: membership is restored, the position and any duplicates are not. */
  lemma ToggleTwicePresent<Id(!new)>(ids: seq<Id>, id: Id)
    requires id in ids
    ensures Toggled(Toggled(ids, id), id) == Without(ids, id) + [id]
  {
  }

  /** Whatever the starting list, two toggles restore every id's membership. */
  lemma ToggleTwiceMembership<Id(!new)>(ids: seq<Id>, id: Id, x: Id)
    ensures x in Toggled(Toggled(ids, id), id) <==> x in ids
  {
  }

  lemma {:induction false} WithoutNoDuplicates<Id(!new)>(ids: seq<Id>, id: Id)
    requires NoDuplicates(ids)
    ensures NoDuplicates(Without(ids, id))
  {
    if |ids| > 0 {
      var tail := ids[1..];
      assert NoDuplicates(tail) by {
        forall i, j | 0 <= i < j < |tail| ensures tail[i] != tail[j] {
          assert tail[i] == ids[i + 1] && tail[j] == ids[j + 1];
        }
      }
      WithoutNoDuplicates(tail, id);
      if ids[0] != id {
        var rest := Without(tail, id);
        assert ids[0] !in tail by {
          forall m | 0 <= m < |tail| ensures tail[m] != ids[0] {
            assert tail[m] == ids[m + 1];
          }
        }
        var r := [ids[0]] + rest;
        forall i, j | 0 <= i < j < |r| ensures r[i] != r[j] {
          if i == 0 {
            assert r[j] == rest[j - 1];
          } else {
            assert r[i] == rest[i - 1] && r[j] == rest[j - 1];
          }
        }
      }
    }
  }

  /** A list without duplicates stays so under a toggle: the push happens only
      for an id not yet listed. */
  lemma TogglePreservesNoDuplicates<Id(!new)>(ids: seq<Id>, id: Id)
    requires NoDuplicates(ids)
    ensures NoDuplicates(Toggled(ids, id))
  {
    if id in ids {
      WithoutNoDuplicates(ids, id);
    } else {
      var r := Toggled(ids, id);
      forall i, j | 0 <= i < j < |r| ensures r[i] != r[j] {
        assert r[i] == ids[i];
        if j < |ids| {
          assert r[j] == ids[j];
        }
      }
    }
  }

  /** The module-level `wishlist` array and its storage. */
  class Wishlist<Id(==,!new)> {
    var ids: seq<Id>
    /** The value last written under the storage key "wishlist"; None while the key is absent. */
    var stored: Option<seq<Id>>

    /** Page load: an absent key gives the empty list and is not written back. */
    constructor (saved: Option<seq<Id>>)
      ensures ids == saved.GetOr([])
      ensures stored == saved
    {
      ids := saved.GetOr([]);
      stored := saved;
    }

    /** One click on a product card's wishlist button. `added` tells which of
        the two confirmation messages is shown. */
    method Toggle(id: Id) returns (added: bool)
      modifies this
      ensures ids == Toggled(old(ids), id)
      ensures added <==> id !in old(ids)
      ensures old(NoDuplicates(ids)) ==> NoDuplicates(ids)
      ensures stored == Some(ids)
    {
      ghost var before := ids;
      if Contains(id) {
        ids := Without(ids, id);
        added := false;
      } else {
        ids := ids + [id];
        added := true;
      }
      stored := Some(ids);
      if NoDuplicates(before) {
        TogglePreservesNoDuplicates(before, id);
      }
    }

    /** `wishlist.includes(id)`, the test that decides which way a click toggles. */
    function Contains(id: Id): (b: bool)
      reads this
      ensures b <==> exists i :: 0 <= i < |ids| && ids[i] == id
    {
      id in ids
    }
  }
}
