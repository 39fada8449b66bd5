/**
  The four property wrappers of the current library version: `UserDefault`,
  `WrappedUserDefault` (raw-representable values), `OptionalUserDefault` and
  `OptionalWrappedUserDefault`, with the shared `removeStorageValue`.

  Each getter is a function of the wrapper's key and the table's entries; each
  setter is a method on the wrapper whose effect on the table is given by
  `Written`. The lemmas connect the two: what a write leaves for a read.
 */
module Accessors {
  import opened Plists
  import opened Store
  import opened PropertyKeys

  // ---------------------------------------------------------------------------
  // Reads

  /** `UserDefault.wrappedValue` get: the entry under the bound key when it is
      of type `T`, `defaultValue` otherwise. */
  function UserDefaultGet(key: PropertyKey, valueType: PlistType, defaultValue: Plist, table: Table): (r: Plist)
    ensures r == defaultValue || (key.Fixed? && Lookup(table, key.name) == Some(r) && HasType(r, valueType))
    ensures HasType(defaultValue, valueType) ==> HasType(r, valueType)
  {
    match key.RawKey()
    case None => defaultValue
    case Some(k) => Cast(Lookup(table, k), valueType).GetOr(defaultValue)
  }

  /** `WrappedUserDefault.wrappedValue` get: the stored raw value decoded with
      `init(rawValue:)`, `defaultValue` when there is no entry of the raw type or
      it does not decode. */
  function WrappedGet<T(!new)>(key: PropertyKey, rep: RawRepresentation<T>, defaultValue: T, table: Table): (r: T)
    ensures r == defaultValue ||
      (key.Fixed? && key.name in table && HasType(table[key.name], rep.rawType)
       && rep.fromRaw(table[key.name]) == Some(r))
  {
    match key.RawKey()
    case None => defaultValue
    case Some(k) =>
      match Cast(Lookup(table, k), rep.rawType)
      case None => defaultValue
      case Some(raw) => rep.fromRaw(raw).GetOr(defaultValue)
  }

  /** `OptionalUserDefault.wrappedValue` get: the entry under the bound key when
      it is of type `T`, nil otherwise. */
  function OptionalGet(key: PropertyKey, valueType: PlistType, table: Table): (r: Option<Plist>)
    ensures r.Some? <==> key.Fixed? && key.name in table && HasType(table[key.name], valueType)
    ensures r.Some? ==> r.value == table[key.name]
  {
    match key.RawKey()
    case None => None
    case Some(k) => Cast(Lookup(table, k), valueType)
  }

  /** `OptionalWrappedUserDefault.wrappedValue` get: the decoded raw value, nil
      when the key is unbound, the entry is absent or not of the raw type, or
      `init(rawValue:)` fails. */
  function OptionalWrappedGet<T(!new)>(key: PropertyKey, rep: RawRepresentation<T>, table: Table): (r: Option<T>)
    ensures r.Some? ==>
      key.Fixed? && key.name in table && HasType(table[key.name], rep.rawType)
      && rep.fromRaw(table[key.name]) == r
    ensures key.Fixed? && key.name in table && HasType(table[key.name], rep.rawType) ==>
      r == rep.fromRaw(table[key.name])
  {
    match key.RawKey()
    case None => None
    case Some(k) =>
      match Cast(Lookup(table, k), rep.rawType)
      case None => None
      case Some(raw) => rep.fromRaw(raw)
  }

  // ---------------------------------------------------------------------------
  // Writes

  /** The table after a `wrappedValue` set that passes `value` to
      `set(_:forKey:)`: nothing happens when the wrapper is read-only or its key
      is unbound; otherwise only the bound key's entry changes. Every variant's
      setter has this shape and differs only in the value passed. */
  function Written(isReadOnly: bool, key: PropertyKey, value: Option<Plist>, table: Table): (r: Table)
    ensures isReadOnly || key.NotSetYet? ==> r == table
    ensures !isReadOnly && key.Fixed? ==> Lookup(r, key.name) == value
    ensures key.Fixed? ==> AgreeExcept(table, r, key.name)
  {
    if isReadOnly then table
    else match key.RawKey()
      case None => table
      case Some(k) => WithObject(table, value, k)
  }

  /** `removeStorageValue()`: the entry under the bound key is removed, and
      nothing happens while the key is unbound. */
  function WithoutStorageValue(key: PropertyKey, table: Table): (r: Table)
    ensures key.NotSetYet? ==> r == table
    ensures key.Fixed? ==> key.name !in r && AgreeExcept(table, r, key.name)
  {
    match key.RawKey()
    case None => table
    case Some(k) => WithoutObject(table, k)
  }

  // ---------------------------------------------------------------------------
  // What reads return

  /** `UserDefault` reads the stored value exactly when the key is bound and the
      entry is of type `T`; in every other case it reads `defaultValue`. */
  lemma UserDefaultGetCases(key: PropertyKey, valueType: PlistType, defaultValue: Plist, table: Table)
    ensures key.Fixed? && key.name in table && HasType(table[key.name], valueType) ==>
      UserDefaultGet(key, valueType, defaultValue, table) == table[key.name]
    ensures key.NotSetYet? || key.name !in table || !HasType(table[key.name], valueType) ==>
      UserDefaultGet(key, valueType, defaultValue, table) == defaultValue
  {
  }

  /** `WrappedUserDefault` reads `defaultValue` for an unbound key, a missing
      entry, an entry of the wrong raw type and a raw value that does not decode. */
  lemma WrappedGetCases<T(!new)>(key: PropertyKey, rep: RawRepresentation<T>, defaultValue: T, table: Table)
    ensures key.NotSetYet? || key.name !in table || !HasType(table[key.name], rep.rawType) ==>
      WrappedGet(key, rep, defaultValue, table) == defaultValue
    ensures key.Fixed? && key.name in table && HasType(table[key.name], rep.rawType) ==>
      WrappedGet(key, rep, defaultValue, table) == rep.fromRaw(table[key.name]).GetOr(defaultValue)
  {
  }

  // ---------------------------------------------------------------------------
  // Write, then read

  /** A permitted `UserDefault` write stores the new value under the key, and
      reading it back gives that value. */
  lemma UserDefaultWriteThenRead(key: PropertyKey, valueType: PlistType, defaultValue: Plist, table: Table, v: Plist)
    requires key.Fixed? && HasType(v, valueType)
    ensures Lookup(Written(false, key, Some(v), table), key.name) == Some(v)
    ensures UserDefaultGet(key, valueType, defaultValue, Written(false, key, Some(v), table)) == v
  {
  }

  /** A permitted `WrappedUserDefault` write stores `v.rawValue`; when `v`
      survives `init(rawValue: v.rawValue)`, reading it back gives `v`. */
  lemma WrappedWriteThenRead<T(!new)>(key: PropertyKey, rep: RawRepresentation<T>, defaultValue: T, table: Table, v: T)
    requires key.Fixed? && rep.Conforms() && rep.RoundTrips(v)
    ensures Lookup(Written(false, key, Some(rep.toRaw(v)), table), key.name) == Some(rep.toRaw(v))
    ensures WrappedGet(key, rep, defaultValue, Written(false, key, Some(rep.toRaw(v)), table)) == v
  {
    assert HasType(rep.toRaw(v), rep.rawType);
  }

  /** `OptionalUserDefault`: after writing `some(v)` the read is `v`; after
      writing nil the entry is gone and the read is nil. */
  lemma OptionalWriteThenRead(key: PropertyKey, valueType: PlistType, table: Table, newValue: Option<Plist>)
    requires key.Fixed?
    requires newValue.Some? ==> HasType(newValue.value, valueType)
    ensures Lookup(Written(false, key, newValue, table), key.name) == newValue
    ensures OptionalGet(key, valueType, Written(false, key, newValue, table)) == newValue
  {
  }

  /** The value `OptionalWrappedUserDefault` passes to `set(_:forKey:)`:
      `newValue?.rawValue`. */
  function RawOf<T(!new)>(rep: RawRepresentation<T>, newValue: Option<T>): (r: Option<Plist>)
    ensures r.None? <==> newValue.None?
    ensures newValue.Some? ==> r.value == rep.toRaw(newValue.value)
  {
    match newValue
    case Some(v) => Some(rep.toRaw(v))
    case None => None
  }

  /** `OptionalWrappedUserDefault`: writing nil leaves no entry and reads nil;
      writing `some(v)` stores `v.rawValue` and, when `v` round-trips, reads `v`. */
  lemma OptionalWrappedWriteThenRead<T(!new)>(key: PropertyKey, rep: RawRepresentation<T>, table: Table, newValue: Option<T>)
    requires key.Fixed? && rep.Conforms()
    requires newValue.Some? ==> rep.RoundTrips(newValue.value)
    ensures Lookup(Written(false, key, RawOf(rep, newValue), table), key.name) == RawOf(rep, newValue)
    ensures OptionalWrappedGet(key, rep, Written(false, key, RawOf(rep, newValue), table)) == newValue
  {
    if newValue.Some? {
      assert HasType(rep.toRaw(newValue.value), rep.rawType);
    }
  }

  // ---------------------------------------------------------------------------
  // Remove, then read

  /** After `removeStorageValue()` the non-optional wrappers read their
      `defaultValue` and the optional ones read nil, whether or not the key is
      bound. */
  lemma RemoveThenRead<T(!new)>(key: PropertyKey, valueType: PlistType, defaultValue: Plist,
                                rep: RawRepresentation<T>, wrappedDefault: T, table: Table)
    ensures UserDefaultGet(key, valueType, defaultValue, WithoutStorageValue(key, table)) == defaultValue
    ensures WrappedGet(key, rep, wrappedDefault, WithoutStorageValue(key, table)) == wrappedDefault
    ensures OptionalGet(key, valueType, WithoutStorageValue(key, table)).None?
    ensures OptionalWrappedGet(key, rep, WithoutStorageValue(key, table)).None?
  {
  }

  // ---------------------------------------------------------------------------
  // The wrappers

  /** `@UserDefault` over a plist type `T` (here `valueType`). */
  class UserDefault {
    var key: PropertyKey
    var isReadOnly: bool
    const valueType: PlistType
    const defaultValue: Plist
    const userDefaults: UserDefaults

    /** `defaultValue` is a `T`. */
    ghost predicate Valid()
    {
      HasType(defaultValue, valueType)
    }

    /** `init(key:defaultValue:userDefaults:)`; `standard` stands for
        `UserDefaults.standard`, used when no table is passed. */
    constructor (key: PropertyKey, valueType: PlistType, defaultValue: Plist,
                 userDefaults: UserDefaults?, standard: UserDefaults)
      requires HasType(defaultValue, valueType)
      ensures Valid()
      ensures this.key == key && !isReadOnly
      ensures this.valueType == valueType && this.defaultValue == defaultValue
      ensures this.userDefaults == if userDefaults != null then userDefaults else standard
    {
      this.key := key;
      this.isReadOnly := false;
      this.valueType := valueType;
      this.defaultValue := defaultValue;
      this.userDefaults := if userDefaults != null then userDefaults else standard;
    }

    /** The `key` setter: write-once. */
    method AssignKey(newValue: PropertyKey)
      modifies this`key
      ensures key == Assign(old(key), newValue)
    {
      if key.RawKey().None? {
        key := newValue;
      }
    }

    /** The getter; a valid wrapper always reads a `T`. */
    function WrappedValue(): (r: Plist)
      reads this, userDefaults
      ensures Valid() ==> HasType(r, valueType)
    {
      UserDefaultGet(key, valueType, defaultValue, userDefaults.entries)
    }

    method SetWrappedValue(newValue: Plist)
      requires HasType(newValue, valueType)
      modifies userDefaults
      ensures userDefaults.entries == Written(isReadOnly, key, Some(newValue), old(userDefaults.entries))
      ensures !isReadOnly && key.Fixed? ==> WrappedValue() == newValue
    {
      if !isReadOnly && key.RawKey().Some? {
        userDefaults.Set(Some(newValue), key.RawKey().value);
      }
    }

    method RemoveStorageValue()
      modifies userDefaults
      ensures userDefaults.entries == WithoutStorageValue(key, old(userDefaults.entries))
      ensures WrappedValue() == defaultValue
    {
      if key.RawKey().Some? {
        userDefaults.RemoveObject(key.RawKey().value);
      }
    }
  }

  /** `@WrappedUserDefault` over a raw-representable `T`. */
  class WrappedUserDefault<T(!new)> {
    var key: PropertyKey
    var isReadOnly: bool
    const representation: RawRepresentation<T>
    const defaultValue: T
    const userDefaults: UserDefaults

    /** `T.RawValue` is plist-compatible and every `rawValue` is of that type. */
    ghost predicate Valid()
    {
      representation.Conforms()
    }

    constructor (key: PropertyKey, representation: RawRepresentation<T>, defaultValue: T,
                 userDefaults: UserDefaults?, standard: UserDefaults)
      requires representation.Conforms()
      ensures Valid()
      ensures this.key == key && !isReadOnly
      ensures this.representation == representation && this.defaultValue == defaultValue
      ensures this.userDefaults == if userDefaults != null then userDefaults else standard
    {
      this.key := key;
      this.isReadOnly := false;
      this.representation := representation;
      this.defaultValue := defaultValue;
      this.userDefaults := if userDefaults != null then userDefaults else standard;
    }

    method AssignKey(newValue: PropertyKey)
      modifies this`key
      ensures key == Assign(old(key), newValue)
    {
      if key.RawKey().None? {
        key := newValue;
      }
    }

    function WrappedValue(): T
      reads this, userDefaults
    {
      WrappedGet(key, representation, defaultValue, userDefaults.entries)
    }

    method SetWrappedValue(newValue: T)
      requires Valid()
      modifies userDefaults
      ensures userDefaults.entries ==
        Written(isReadOnly, key, Some(representation.toRaw(newValue)), old(userDefaults.entries))
      ensures !isReadOnly && key.Fixed? && representation.RoundTrips(newValue) ==> WrappedValue() == newValue
    {
      if !isReadOnly && key.RawKey().Some? {
        userDefaults.Set(Some(representation.toRaw(newValue)), key.RawKey().value);
        if representation.RoundTrips(newValue) {
          WrappedWriteThenRead(key, representation, defaultValue, old(userDefaults.entries), newValue);
        }
      }
    }

    method RemoveStorageValue()
      modifies userDefaults
      ensures userDefaults.entries == WithoutStorageValue(key, old(userDefaults.entries))
      ensures WrappedValue() == defaultValue
    {
      if key.RawKey().Some? {
        userDefaults.RemoveObject(key.RawKey().value);
      }
    }
  }

  /** `@OptionalUserDefault` over a plist type `T` (here `valueType`). */
  class OptionalUserDefault {
    var key: PropertyKey
    var isReadOnly: bool
    const valueType: PlistType
    const userDefaults: UserDefaults

    constructor (key: PropertyKey, valueType: PlistType, userDefaults: UserDefaults?, standard: UserDefaults)
      ensures this.key == key && !isReadOnly && this.valueType == valueType
      ensures this.userDefaults == if userDefaults != null then userDefaults else standard
    {
      this.key := key;
      this.isReadOnly := false;
      this.valueType := valueType;
      this.userDefaults := if userDefaults != null then userDefaults else standard;
    }

    method AssignKey(newValue: PropertyKey)
      modifies this`key
      ensures key == Assign(old(key), newValue)
    {
      if key.RawKey().None? {
        key := newValue;
      }
    }

    function WrappedValue(): Option<Plist>
      reads this, userDefaults
    {
      OptionalGet(key, valueType, userDefaults.entries)
    }

    method SetWrappedValue(newValue: Option<Plist>)
      requires newValue.Some? ==> HasType(newValue.value, valueType)
      modifies userDefaults
      ensures userDefaults.entries == Written(isReadOnly, key, newValue, old(userDefaults.entries))
      ensures !isReadOnly && key.Fixed? ==> WrappedValue() == newValue
    {
      if !isReadOnly && key.RawKey().Some? {
        userDefaults.Set(newValue, key.RawKey().value);
      }
    }

    method RemoveStorageValue()
      modifies userDefaults
      ensures userDefaults.entries == WithoutStorageValue(key, old(userDefaults.entries))
      ensures WrappedValue().None?
    {
      if key.RawKey().Some? {
        userDefaults.RemoveObject(key.RawKey().value);
      }
    }
  }

  /** `@OptionalWrappedUserDefault` over a raw-representable `T`. */
  class OptionalWrappedUserDefault<T(!new)> {
    var key: PropertyKey
    var isReadOnly: bool
    const representation: RawRepresentation<T>
    const userDefaults: UserDefaults

    ghost predicate Valid()
    {
      representation.Conforms()
    }

    constructor (key: PropertyKey, representation: RawRepresentation<T>,
                 userDefaults: UserDefaults?, standard: UserDefaults)
      requires representation.Conforms()
      ensures Valid()
      ensures this.key == key && !isReadOnly && this.representation == representation
      ensures this.userDefaults == if userDefaults != null then userDefaults else standard
    {
      this.key := key;
      this.isReadOnly := false;
      this.representation := representation;
      this.userDefaults := if userDefaults != null then userDefaults else standard;
    }

    method AssignKey(newValue: PropertyKey)
      modifies this`key
      ensures key == Assign(old(key), newValue)
    {
      if key.RawKey().None? {
        key := newValue;
      }
    }

    function WrappedValue(): Option<T>
      reads this, userDefaults
    {
      OptionalWrappedGet(key, representation, userDefaults.entries)
    }

    method SetWrappedValue(newValue: Option<T>)
      requires Valid()
      modifies userDefaults
      ensures userDefaults.entries ==
        Written(isReadOnly, key, RawOf(representation, newValue), old(userDefaults.entries))
      ensures !isReadOnly && key.Fixed? && (newValue.Some? ==> representation.RoundTrips(newValue.value)) ==>
        WrappedValue() == newValue
    {
      if !isReadOnly && key.RawKey().Some? {
        userDefaults.Set(RawOf(representation, newValue), key.RawKey().value);
        if newValue.None? || representation.RoundTrips(newValue.value) {
          OptionalWrappedWriteThenRead(key, representation, old(userDefaults.entries), newValue);
        }
      }
    }

    method RemoveStorageValue()
      modifies userDefaults
      ensures userDefaults.entries == WithoutStorageValue(key, old(userDefaults.entries))
      ensures WrappedValue().None?
    {
      if key.RawKey().Some? {
        userDefaults.RemoveObject(key.RawKey().value);
      }
    }
  }
}
