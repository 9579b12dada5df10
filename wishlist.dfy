/** The customer's wishlist page (src/pages/customer/Wishlist.tsx): the
    list is read from the durable `wishlist` key on load, and each removal
    filters the list and writes it back. */
module WishlistPage {
  import opened Types
  import opened Persistence
  import opened Seqs

  const WishlistKey := "wishlist"

  function KeepOtherItem(id: string): WishlistItem -> bool
  {
    (item: WishlistItem) => item.id != id
  }

  /** `wishlist.filter(item => item.id !== id)` */
  function Without(items: seq<WishlistItem>, id: string): seq<WishlistItem>
  {
    Filter(items, KeepOtherItem(id))
  }

  /** After a removal no item has the id; the others stay, each as often as
      it occurred, in their order;
      removing an id that is not listed changes nothing. */
  lemma WithoutSpec(items: seq<WishlistItem>, id: string)
    ensures forall i :: 0 <= i < |Without(items, id)| ==> Without(items, id)[i].id != id
    ensures forall x :: x in Without(items, id) <==> x in items && x.id != id
    ensures IsSubsequence(Without(items, id), items)
    ensures (forall i :: 0 <= i < |items| ==> items[i].id != id) ==> Without(items, id) == items
    ensures forall x :: multiset(Without(items, id))[x] == if x.id != id then multiset(items)[x] else 0
  {
    FilterCounts(items, KeepOtherItem(id));
    forall x ensures x in Without(items, id) <==> x in items && x.id != id {
      FilterMembership(items, KeepOtherItem(id), x);
    }
    var r := Without(items, id);
    forall i | 0 <= i < |r| ensures r[i].id != id {
      assert r[i] in r;
    }
    FilterIsSubsequence(items, KeepOtherItem(id));
    if forall i :: 0 <= i < |items| ==> items[i].id != id {
      FilterKeepsAll(items, KeepOtherItem(id));
    }
  }

  class Wishlist {
    var items: seq<WishlistItem>
    const storage: Storage

    /** Mount the page and run its load effect. A stored value that does
        not parse aborts the effect, leaving the list empty. */
    constructor (storage: Storage)
      ensures this.storage == storage
      ensures WishlistKey in storage.entries && storage.entries[WishlistKey].WishlistItems? ==>
        items == storage.entries[WishlistKey].items
      ensures !(WishlistKey in storage.entries && storage.entries[WishlistKey].WishlistItems?) ==> items == []
    {
      this.storage := storage;
      items := [];
      new;
      var stored := storage.Get(WishlistKey);
      if stored.Some? && stored.value.WishlistItems? {
        items := stored.value.items;
      }
    }

    /** `removeFromWishlist(id)` */
    method RemoveFromWishlist(id: string)
      modifies this, storage
      ensures items == Without(old(items), id)
      ensures storage.entries == old(storage.entries)[WishlistKey := WishlistItems(items)]
    {
      var updated := Without(items, id);
      items := updated;
      storage.Set(WishlistKey, WishlistItems(updated));
    }
  }
}
