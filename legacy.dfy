/**
  The first version of the wrappers: `UserDefault<T>` and
  `OptionalUserDefault<T>` with a plain `String` key that never changes and
  the `.standard` table.

  `UserDefault<T>` inspects at run time whether `T` is an optional type. Here
  that choice is static: `UserDefault` is the wrapper for a non-optional plist
  type, `NullableUserDefault` the same wrapper instantiated with `T == U?`
  (its values and its default are `Option<Plist>`).
 */
module Legacy {
  import opened Plists
  import opened Store
  import PropertyKeys
  import Accessors

  /** `UserDefault<T>` get for a non-optional `T`: the stored `T`, or
      `defaultValue` when there is none. */
  function Get(valueType: PlistType, defaultValue: Plist, table: Table, key: string): (r: Plist)
    ensures r == defaultValue || (Lookup(table, key) == Some(r) && HasType(r, valueType))
    ensures HasType(defaultValue, valueType) ==> HasType(r, valueType)
    ensures key in table && HasType(table[key], valueType) ==> r == table[key]
    ensures key !in table || !HasType(table[key], valueType) ==> r == defaultValue
  {
    Cast(Lookup(table, key), valueType).GetOr(defaultValue)
  }

  /** `UserDefault<U?>` get: the stored `U`, or `defaultValue` (itself possibly
      nil) when there is none. */
  function NullableGet(valueType: PlistType, defaultValue: Option<Plist>, table: Table, key: string): (r: Option<Plist>)
    ensures r == defaultValue || (r.Some? && Lookup(table, key) == r && HasType(r.value, valueType))
    ensures r.None? ==> defaultValue.None?
    ensures key in table && HasType(table[key], valueType) ==> r == Some(table[key])
    ensures key !in table || !HasType(table[key], valueType) ==> r == defaultValue
  {
    match Cast(Lookup(table, key), valueType)
    case Some(v) => Some(v)
    case None => defaultValue
  }

  /** `UserDefault<U?>` set: `some(v)` stores `v`, nil removes the entry. */
  function NullableSet(newValue: Option<Plist>, table: Table, key: string): (r: Table)
    ensures newValue.None? ==> key !in r
    ensures newValue.Some? ==> key in r && r[key] == newValue.value
    ensures AgreeExcept(table, r, key)
  {
    match newValue
    case Some(v) => WithObject(table, Some(v), key)
    case None => WithoutObject(table, key)
  }

  /** A non-optional `UserDefault` reads back what was written to it. */
  lemma WriteThenRead(valueType: PlistType, defaultValue: Plist, table: Table, key: string, v: Plist)
    requires HasType(v, valueType)
    ensures Get(valueType, defaultValue, WithObject(table, Some(v), key), key) == v
  {
  }

  /** A missing entry reads as the default. */
  lemma AbsentReadsDefault(valueType: PlistType, defaultValue: Plist, nullableDefault: Option<Plist>,
                           table: Table, key: string)
    requires key !in table
    ensures Get(valueType, defaultValue, table, key) == defaultValue
    ensures NullableGet(valueType, nullableDefault, table, key) == nullableDefault
  {
  }

  /** Null collapse: writing nil to `UserDefault<U?>` makes it read exactly as a
      key that was never written, its `defaultValue`; writing `some(v)` reads `v`. */
  lemma NullableWriteThenRead(valueType: PlistType, defaultValue: Option<Plist>, table: Table, key: string,
                              newValue: Option<Plist>)
    requires newValue.Some? ==> HasType(newValue.value, valueType)
    ensures NullableGet(valueType, defaultValue, NullableSet(newValue, table, key), key) ==
      if newValue.Some? then newValue else defaultValue
  {
  }

  /** The table after `UserDefault<U?>`'s setter has run with each of `writes`. */
  function NullableSetAll(writes: seq<Option<Plist>>, table: Table, key: string): Table
    decreases |writes|
  {
    if |writes| == 0 then table
    else NullableSetAll(writes[1..], NullableSet(writes[0], table, key), key)
  }

  /** Last write wins, and a last write of nil leaves the default: after any
      non-empty sequence of writes the read depends on the last one alone. */
  lemma {:induction false} NullableLastWriteWins(valueType: PlistType, defaultValue: Option<Plist>,
                                                 table: Table, key: string, writes: seq<Option<Plist>>)
    requires |writes| > 0
    requires forall i | 0 <= i < |writes| :: writes[i].Some? ==> HasType(writes[i].value, valueType)
    ensures NullableGet(valueType, defaultValue, NullableSetAll(writes, table, key), key) ==
      if writes[|writes| - 1].Some? then writes[|writes| - 1] else defaultValue
    decreases |writes|
  {
    if |writes| == 1 {
      NullableWriteThenRead(valueType, defaultValue, table, key, writes[0]);
    } else {
      NullableLastWriteWins(valueType, defaultValue, NullableSet(writes[0], table, key), key, writes[1..]);
    }
  }

  /** The later library version reads and writes a fixed key exactly as this
      one: the non-optional getter is `UserDefault`'s, and `UserDefault<U?>`'s
      setter is `OptionalUserDefault`'s, since `set(nil, forKey:)` removes. */
  lemma AgreesWithFixedKeyWrappers(valueType: PlistType, defaultValue: Plist, table: Table, key: string,
                                   newValue: Option<Plist>)
    ensures Get(valueType, defaultValue, table, key) ==
      Accessors.UserDefaultGet(PropertyKeys.Fixed(key), valueType, defaultValue, table)
    ensures NullableSet(newValue, table, key) ==
      Accessors.Written(false, PropertyKeys.Fixed(key), newValue, table)
    ensures Cast(Lookup(table, key), valueType) ==
      Accessors.OptionalGet(PropertyKeys.Fixed(key), valueType, table)
  {
  }

  /** `UserDefault<T>` for a non-optional plist type `T` (here `valueType`). */
  class UserDefault {
    const key: string
    const valueType: PlistType
    const defaultValue: Plist
    /** `UserDefaults.standard`. */
    const standard: UserDefaults

    ghost predicate Valid()
    {
      HasType(defaultValue, valueType)
    }

    /** `init(key:defaultValue:)`. */
    constructor (key: string, valueType: PlistType, defaultValue: Plist, standard: UserDefaults)
      requires HasType(defaultValue, valueType)
      ensures Valid()
      ensures this.key == key && this.valueType == valueType && this.defaultValue == defaultValue
      ensures this.standard == standard
    {
      this.key := key;
      this.valueType := valueType;
      this.defaultValue := defaultValue;
      this.standard := standard;
    }

    /** `init(wrappedValue:key:defaultValue:)`: also writes the initial value. */
    constructor WithInitialValue(wrappedValue: Plist, key: string, valueType: PlistType, defaultValue: Plist,
                                 standard: UserDefaults)
      requires HasType(defaultValue, valueType) && HasType(wrappedValue, valueType)
      modifies standard
      ensures Valid()
      ensures this.key == key && this.valueType == valueType && this.defaultValue == defaultValue
      ensures this.standard == standard
      ensures standard.entries == WithObject(old(standard.entries), Some(wrappedValue), key)
      ensures WrappedValue() == wrappedValue
    {
      this.key := key;
      this.valueType := valueType;
      this.defaultValue := defaultValue;
      this.standard := standard;
      new;
      standard.Set(Some(wrappedValue), key);
    }

    /** The getter; a valid wrapper always reads a `T`. */
    function WrappedValue(): (r: Plist)
      reads standard
      ensures Valid() ==> HasType(r, valueType)
    {
      Get(valueType, defaultValue, standard.entries, key)
    }

    method SetWrappedValue(newValue: Plist)
      requires HasType(newValue, valueType)
      modifies standard
      ensures standard.entries == WithObject(old(standard.entries), Some(newValue), key)
      ensures WrappedValue() == newValue
    {
      standard.Set(Some(newValue), key);
    }
  }

  /** `UserDefault<T>` with `T == U?` for a plist type `U` (here `valueType`). */
  class NullableUserDefault {
    const key: string
    const valueType: PlistType
    const defaultValue: Option<Plist>
    const standard: UserDefaults

    ghost predicate Valid()
    {
      defaultValue.Some? ==> HasType(defaultValue.value, valueType)
    }

    constructor (key: string, valueType: PlistType, defaultValue: Option<Plist>, standard: UserDefaults)
      requires defaultValue.Some? ==> HasType(defaultValue.value, valueType)
      ensures Valid()
      ensures this.key == key && this.valueType == valueType && this.defaultValue == defaultValue
      ensures this.standard == standard
    {
      this.key := key;
      this.valueType := valueType;
      this.defaultValue := defaultValue;
      this.standard := standard;
    }

    constructor WithInitialValue(wrappedValue: Option<Plist>, key: string, valueType: PlistType,
                                 defaultValue: Option<Plist>, standard: UserDefaults)
      requires defaultValue.Some? ==> HasType(defaultValue.value, valueType)
      requires wrappedValue.Some? ==> HasType(wrappedValue.value, valueType)
      modifies standard
      ensures Valid()
      ensures this.key == key && this.valueType == valueType && this.defaultValue == defaultValue
      ensures this.standard == standard
      ensures standard.entries == NullableSet(wrappedValue, old(standard.entries), key)
      ensures WrappedValue() == if wrappedValue.Some? then wrappedValue else defaultValue
    {
      this.key := key;
      this.valueType := valueType;
      this.defaultValue := defaultValue;
      this.standard := standard;
      new;
      SetWrappedValue(wrappedValue);
    }

    /** The getter; a valid wrapper reads nil or a `U`. */
    function WrappedValue(): (r: Option<Plist>)
      reads standard
      ensures Valid() ==> r.Some? ==> HasType(r.value, valueType)
    {
      NullableGet(valueType, defaultValue, standard.entries, key)
    }

    method SetWrappedValue(newValue: Option<Plist>)
      requires newValue.Some? ==> HasType(newValue.value, valueType)
      modifies standard
      ensures standard.entries == NullableSet(newValue, old(standard.entries), key)
      ensures WrappedValue() == if newValue.Some? then newValue else defaultValue
    {
      match newValue
      case Some(v) => standard.Set(Some(v), key);
      case None => standard.RemoveObject(key);
    }
  }

  /** `OptionalUserDefault<T>` for a plist type `T` (here `valueType`). */
  class OptionalUserDefault {
    const key: string
    const valueType: PlistType
    const standard: UserDefaults

    /** `init(key:)`. */
    constructor (key: string, valueType: PlistType, standard: UserDefaults)
      ensures this.key == key && this.valueType == valueType && this.standard == standard
    {
      this.key := key;
      this.valueType := valueType;
      this.standard := standard;
    }

    /** `init(wrappedValue:key:)`: also writes the initial value. */
    constructor WithInitialValue(wrappedValue: Plist, key: string, valueType: PlistType, standard: UserDefaults)
      requires HasType(wrappedValue, valueType)
      modifies standard
      ensures this.key == key && this.valueType == valueType && this.standard == standard
      ensures standard.entries == WithObject(old(standard.entries), Some(wrappedValue), key)
      ensures WrappedValue() == Some(wrappedValue)
    {
      this.key := key;
      this.valueType := valueType;
      this.standard := standard;
      new;
      standard.Set(Some(wrappedValue), key);
    }

    function WrappedValue(): Option<Plist>
      reads standard
    {
      Cast(standard.Object(key), valueType)
    }

    method SetWrappedValue(newValue: Option<Plist>)
      requires newValue.Some? ==> HasType(newValue.value, valueType)
      modifies standard
      ensures standard.entries == WithObject(old(standard.entries), newValue, key)
      ensures WrappedValue() == newValue
    {
      standard.Set(newValue, key);
    }
  }
}
