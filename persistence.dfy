/** The browser's durable key-value store (`localStorage`), with JSON
    abstracted away: a key holds a typed value, and `Malformed` stands for a
    stored text that does not parse as the value the reader expects. */
module Persistence {
  import opened Types

  datatype Value =
    | UserRecord(user: User)
    | ProductList(products: seq<Product>)
    | WishlistItems(items: seq<WishlistItem>)
    | Malformed

  class Storage {
    var entries: map<string, Value>

    constructor (initial: map<string, Value>)
      ensures entries == initial
    {
      entries := initial;
    }

    /** `localStorage.getItem(key)` */
    method Get(key: string) returns (v: Option<Value>)
      ensures key in entries <==> v.Some?
      ensures v.Some? ==> v.value == entries[key]
    {
      v := if key in entries then Some(entries[key]) else None;
    }

    /** `localStorage.setItem(key, value)` */
    method Set(key: string, v: Value)
      modifies this
      ensures entries == old(entries)[key := v]
    {
      entries := entries[key := v];
    }

    /** `localStorage.removeItem(key)`; a missing key is left missing. */
    method Remove(key: string)
      modifies this
      ensures entries == old(entries) - {key}
    {
      entries := entries - {key};
    }
  }
}
