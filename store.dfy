/**
  The preferences table (`UserDefaults`) as the wrappers use it: a string-keyed
  table of property-list values, read with `object(forKey:)` and changed with
  `set(_:forKey:)` and `removeObject(forKey:)`. Persistence, registered
  defaults and other processes are outside the model.
 */
module Store {
  import opened Plists

  type Table = map<string, Plist>

  /** `object(forKey:)` on a table. */
  function Lookup(table: Table, key: string): (r: Option<Plist>)
    ensures r.Some? <==> key in table
    ensures r.Some? ==> r.value == table[key]
  {
    if key in table then Some(table[key]) else None
  }

  /** The two tables agree on every key other than `key`. */
  ghost predicate AgreeExcept(a: Table, b: Table, key: string)
  {
    forall k :: k != key ==> Lookup(a, k) == Lookup(b, k)
  }

  /** `set(_:forKey:)`: a value is stored, nil removes the entry. */
  function WithObject(table: Table, value: Option<Plist>, key: string): (r: Table)
    ensures Lookup(r, key) == value
    ensures AgreeExcept(table, r, key)
  {
    match value
    case Some(v) => table[key := v]
    case None => table - {key}
  }

  /** `removeObject(forKey:)`. */
  function WithoutObject(table: Table, key: string): (r: Table)
    ensures key !in r
    ensures AgreeExcept(table, r, key)
  {
    table - {key}
  }

  /** Removing an entry and setting it to nil are the same table operation. */
  lemma RemoveIsSetNil(table: Table, key: string)
    ensures WithoutObject(table, key) == WithObject(table, None, key)
  {
  }

  class UserDefaults {
    var entries: Table

    constructor (entries: Table)
      ensures this.entries == entries
    {
      this.entries := entries;
    }

    function Object(forKey: string): Option<Plist>
      reads this
    {
      Lookup(entries, forKey)
    }

    method Set(value: Option<Plist>, forKey: string)
      modifies this
      ensures entries == WithObject(old(entries), value, forKey)
    {
      entries := WithObject(entries, value, forKey);
    }

    method RemoveObject(forKey: string)
      modifies this
      ensures entries == WithoutObject(old(entries), forKey)
    {
      entries := WithoutObject(entries, forKey);
    }
  }
}
