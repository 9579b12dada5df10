/** The catalog store (src/context/ProductContext.tsx): an ordered product
    list, mirrored in full to the durable `products` key after every change. */
module Catalog {
  import opened Types
  import opened Persistence
  import opened Seqs

  const ProductsKey := "products"
  const LoadFailedMessage := "Failed to load products"

  /** `Omit<Product, 'id' | 'createdAt'>`: what a caller supplies to `addProduct`. */
  datatype Draft = Draft(
    title: string,
    price: real,
    description: string,
    category: string,
    image: string,
    stock: int,
    createdBy: string)

  /** `Partial<Product>`: a field is `None` when the caller leaves it out. */
  datatype Patch = Patch(
    id: Option<string>,
    title: Option<string>,
    price: Option<real>,
    description: Option<string>,
    category: Option<string>,
    image: Option<string>,
    stock: Option<int>,
    createdBy: Option<string>,
    createdAt: Option<int>)

  /** The draft part of a product: everything except `id` and `createdAt`. */
  function DraftOf(p: Product): Draft
  {
    Draft(p.title, p.price, p.description, p.category, p.image, p.stock, p.createdBy)
  }

  /** `{ ...product, id, createdAt }`: the draft completed with an id and a timestamp. */
  function NewProduct(d: Draft, id: string, createdAt: int): (p: Product)
    ensures DraftOf(p) == d
    ensures p.id == id && p.createdAt == createdAt
  {
    Product(id, d.title, d.price, d.description, d.category, d.image, d.stock, d.createdBy, createdAt)
  }

  function Override<T>(field: Option<T>, current: T): T
  {
    if field.Some? then field.value else current
  }

  /** `{ ...product, ...updatedFields }` */
  function Merge(p: Product, f: Patch): Product
  {
    Product(
      Override(f.id, p.id), Override(f.title, p.title), Override(f.price, p.price),
      Override(f.description, p.description), Override(f.category, p.category),
      Override(f.image, p.image), Override(f.stock, p.stock),
      Override(f.createdBy, p.createdBy), Override(f.createdAt, p.createdAt))
  }

  /** `products.map(p => p.id === id ? { ...p, ...f } : p)` */
  function Updated(ps: seq<Product>, id: string, f: Patch): seq<Product>
  {
    if ps == [] then []
    else [if ps[0].id == id then Merge(ps[0], f) else ps[0]] + Updated(ps[1..], id, f)
  }

  function KeepOther(id: string): Product -> bool
  {
    (p: Product) => p.id != id
  }

  /** `products.filter(p => p.id !== id)` */
  function Deleted(ps: seq<Product>, id: string): seq<Product>
  {
    Filter(ps, KeepOther(id))
  }

  predicate HasId(ps: seq<Product>, id: string)
  {
    exists i :: 0 <= i < |ps| && ps[i].id == id
  }

  predicate UniqueIds(ps: seq<Product>)
  {
    forall i, j :: 0 <= i < j < |ps| ==> ps[i].id != ps[j].id
  }

  // ---------------------------------------------------------------------
  // Properties of the list operations

  /** The spread `{ ...p, ...f }`: every field the patch carries replaces
      the record's, every field it omits keeps the record's value, and so an
      empty patch changes nothing. */
  lemma MergeOverrides(p: Product, f: Patch)
    ensures Merge(p, Patch(None, None, None, None, None, None, None, None, None)) == p
    ensures f.id.Some? ==> Merge(p, f).id == f.id.value
    ensures f.id.None? ==> Merge(p, f).id == p.id
    ensures f.title.Some? ==> Merge(p, f).title == f.title.value
    ensures f.title.None? ==> Merge(p, f).title == p.title
    ensures f.price.Some? ==> Merge(p, f).price == f.price.value
    ensures f.price.None? ==> Merge(p, f).price == p.price
    ensures f.description.Some? ==> Merge(p, f).description == f.description.value
    ensures f.description.None? ==> Merge(p, f).description == p.description
    ensures f.category.Some? ==> Merge(p, f).category == f.category.value
    ensures f.category.None? ==> Merge(p, f).category == p.category
    ensures f.image.Some? ==> Merge(p, f).image == f.image.value
    ensures f.image.None? ==> Merge(p, f).image == p.image
    ensures f.stock.Some? ==> Merge(p, f).stock == f.stock.value
    ensures f.stock.None? ==> Merge(p, f).stock == p.stock
    ensures f.createdBy.Some? ==> Merge(p, f).createdBy == f.createdBy.value
    ensures f.createdBy.None? ==> Merge(p, f).createdBy == p.createdBy
    ensures f.createdAt.Some? ==> Merge(p, f).createdAt == f.createdAt.value
    ensures f.createdAt.None? ==> Merge(p, f).createdAt == p.createdAt
  {
  }

  /** Update keeps length and order: a record with another id is untouched,
      a record with the id is overridden by the patch. */
  lemma {:induction false} UpdatedPointwise(ps: seq<Product>, id: string, f: Patch)
    ensures |Updated(ps, id, f)| == |ps|
    ensures forall i :: 0 <= i < |ps| ==>
      Updated(ps, id, f)[i] == if ps[i].id == id then Merge(ps[i], f) else ps[i]
  {
    if ps != [] {
      UpdatedPointwise(ps[1..], id, f);
    }
  }

  /** Updating an id no record has leaves the list as it was. */
  lemma {:induction false} UpdateUnknownIdIsNoop(ps: seq<Product>, id: string, f: Patch)
    requires !HasId(ps, id)
    ensures Updated(ps, id, f) == ps
  {
    if ps != [] {
      assert !HasId(ps[1..], id) by {
        forall i | 0 <= i < |ps[1..]| ensures ps[1..][i].id != id {
          assert ps[1..][i] == ps[i + 1];
        }
      }
      UpdateUnknownIdIsNoop(ps[1..], id, f);
      assert ps == [ps[0]] + ps[1..];
    }
  }

  /** Delete keeps exactly the records whose id differs, each as often as
      it occurred, in their order; afterwards no record has the id; an
      absent id changes nothing. */
  lemma DeleteKeepsOthers(ps: seq<Product>, id: string)
    ensures forall p :: p in Deleted(ps, id) <==> p in ps && p.id != id
    ensures IsSubsequence(Deleted(ps, id), ps)
    ensures !HasId(Deleted(ps, id), id)
    ensures !HasId(ps, id) ==> Deleted(ps, id) == ps
    ensures forall p :: multiset(Deleted(ps, id))[p] == if p.id != id then multiset(ps)[p] else 0
  {
    FilterCounts(ps, KeepOther(id));
    forall p ensures p in Deleted(ps, id) <==> p in ps && p.id != id {
      FilterMembership(ps, KeepOther(id), p);
    }
    FilterIsSubsequence(ps, KeepOther(id));
    var r := Deleted(ps, id);
    forall i | 0 <= i < |r| ensures r[i].id != id {
      assert r[i] in r;
    }
    if !HasId(ps, id) {
      FilterKeepsAll(ps, KeepOther(id));
    }
  }

  /** An update after a delete of the same id does not bring the record back. */
  lemma DeleteThenUpdateStaysDeleted(ps: seq<Product>, id: string, f: Patch)
    ensures Updated(Deleted(ps, id), id, f) == Deleted(ps, id)
  {
    DeleteKeepsOthers(ps, id);
    UpdateUnknownIdIsNoop(Deleted(ps, id), id, f);
  }

  /** Appending a product whose id is fresh keeps ids unique. */
  lemma AddKeepsIdsUnique(ps: seq<Product>, p: Product)
    requires UniqueIds(ps) && !HasId(ps, p.id)
    ensures UniqueIds(ps + [p])
  {
    var qs := ps + [p];
    forall i, j | 0 <= i < j < |qs| ensures qs[i].id != qs[j].id {
      if j == |ps| {
        assert qs[i] == ps[i];
      }
    }
  }

  /** Delete keeps ids unique. */
  lemma DeleteKeepsIdsUnique(ps: seq<Product>, id: string)
    requires UniqueIds(ps)
    ensures UniqueIds(Deleted(ps, id))
  {
    FilterIsSubsequence(ps, KeepOther(id));
    SubsequenceKeepsUniqueIds(Deleted(ps, id), ps);
  }

  lemma {:induction false} SubsequenceKeepsUniqueIds(a: seq<Product>, b: seq<Product>)
    requires UniqueIds(b) && IsSubsequence(a, b)
    ensures UniqueIds(a)
    decreases |b|
  {
    if a != [] && b != [] {
      assert UniqueIds(b[1..]) by {
        forall i, j | 0 <= i < j < |b[1..]| ensures b[1..][i].id != b[1..][j].id {
          assert b[1..][i] == b[i + 1] && b[1..][j] == b[j + 1];
        }
      }
      if a[0] == b[0] && IsSubsequence(a[1..], b[1..]) {
        SubsequenceKeepsUniqueIds(a[1..], b[1..]);
        SubsequenceMembers(a[1..], b[1..]);
        forall i, j | 0 <= i < j < |a| ensures a[i].id != a[j].id {
          if i == 0 {
            assert a[j] == a[1..][j - 1];
            var k :| 0 <= k < |b[1..]| && b[1..][k] == a[j];
            assert b[k + 1] == a[j];
          } else {
            assert a[i] == a[1..][i - 1] && a[j] == a[1..][j - 1];
          }
        }
      } else {
        SubsequenceKeepsUniqueIds(a, b[1..]);
      }
    }
  }

  lemma {:induction false} SubsequenceMembers(a: seq<Product>, b: seq<Product>)
    requires IsSubsequence(a, b)
    ensures forall i :: 0 <= i < |a| ==> exists k :: 0 <= k < |b| && b[k] == a[i]
    decreases |b|
  {
    if a != [] && b != [] {
      if a[0] == b[0] && IsSubsequence(a[1..], b[1..]) {
        SubsequenceMembers(a[1..], b[1..]);
        forall i | 1 <= i < |a| ensures exists k :: 0 <= k < |b| && b[k] == a[i] {
          assert a[i] == a[1..][i - 1];
          var k :| 0 <= k < |b[1..]| && b[1..][k] == a[i];
          assert b[k + 1] == a[i];
        }
        assert b[0] == a[0];
      } else {
        SubsequenceMembers(a, b[1..]);
        forall i | 0 <= i < |a| ensures exists k :: 0 <= k < |b| && b[k] == a[i] {
          var k :| 0 <= k < |b[1..]| && b[1..][k] == a[i];
          assert b[k + 1] == a[i];
        }
      }
    }
  }

  /** The live store. */
  class ProductStore {
    var products: seq<Product>
    var isLoading: bool
    var error: Option<string>
    const storage: Storage

    /** The durable `products` key holds exactly the in-memory list. */
    ghost predicate Mirrored()
      reads this, storage
    {
      ProductsKey in storage.entries && storage.entries[ProductsKey] == ProductList(products)
    }

    /** Mount the provider and run its load effect; `demo` is the bundled
        default catalog. */
    constructor (storage: Storage, demo: seq<Product>)
      modifies storage
      ensures this.storage == storage && !isLoading
      ensures ProductsKey !in old(storage.entries) ==>
        && products == demo && error == None
        && storage.entries == old(storage.entries)[ProductsKey := ProductList(demo)]
      ensures ProductsKey in old(storage.entries) ==> storage.entries == old(storage.entries)
      ensures ProductsKey in old(storage.entries) && old(storage.entries)[ProductsKey].ProductList? ==>
        products == old(storage.entries)[ProductsKey].products && error == None
      ensures ProductsKey in old(storage.entries) && !old(storage.entries)[ProductsKey].ProductList? ==>
        products == [] && error == Some(LoadFailedMessage)
    {
      this.storage := storage;
      products := [];
      isLoading := true;
      error := None;
      new;
      var saved := storage.Get(ProductsKey);
      if saved.Some? {
        if saved.value.ProductList? {
          products := saved.value.products;
        } else {
          error := Some(LoadFailedMessage);
        }
      } else {
        products := demo;
        storage.Set(ProductsKey, ProductList(demo));
      }
      isLoading := false;
    }

    /** `addProduct(draft)`; `freshId` and `now` stand for the random id and the clock. */
    method AddProduct(draft: Draft, freshId: string, now: int) returns (p: Product)
      modifies this, storage
      ensures DraftOf(p) == draft && p.id == freshId && p.createdAt == now
      ensures products == old(products) + [p]
      ensures storage.entries == old(storage.entries)[ProductsKey := ProductList(products)]
      ensures Mirrored() && isLoading == old(isLoading) && error == old(error)
    {
      p := NewProduct(draft, freshId, now);
      var updated := products + [p];
      products := updated;
      storage.Set(ProductsKey, ProductList(updated));
    }

    /** `updateProduct(id, fields)` */
    method UpdateProduct(id: string, f: Patch)
      modifies this, storage
      ensures products == Updated(old(products), id, f)
      ensures storage.entries == old(storage.entries)[ProductsKey := ProductList(products)]
      ensures Mirrored() && isLoading == old(isLoading) && error == old(error)
    {
      var updated := Updated(products, id, f);
      products := updated;
      storage.Set(ProductsKey, ProductList(updated));
    }

    /** `deleteProduct(id)` */
    method DeleteProduct(id: string)
      modifies this, storage
      ensures products == Deleted(old(products), id)
      ensures storage.entries == old(storage.entries)[ProductsKey := ProductList(products)]
      ensures Mirrored() && isLoading == old(isLoading) && error == old(error)
    {
      var filtered := Deleted(products, id);
      products := filtered;
      storage.Set(ProductsKey, ProductList(filtered));
    }
  }

  /** Reloading over the storage a store has written restores the same list,
      in the same order, and writes nothing. */
  method Reload(store: ProductStore, demo: seq<Product>) returns (reloaded: ProductStore)
    requires store.Mirrored()
    modifies store.storage
    ensures reloaded.products == old(store.products) && reloaded.error == None
    ensures store.storage.entries == old(store.storage.entries)
  {
    reloaded := new ProductStore(store.storage, demo);
  }
}
