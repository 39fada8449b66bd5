/**
  `UniversalUserDefault<T>`: one wrapper for both a plist type `T` (with a
  given default) and `T == Optional<PlistCompatible>` (default nil). The two
  constrained initialisers fix which of the two `T` is.
 */
module Universal {
  import opened Plists
  import opened Store
  import opened PropertyKeys
  import opened Accessors

  /** What `T` is: a plist type, or `Optional<PlistCompatible>`. A value of `T`
      is written `Some(p)`; `None` is the nil of the optional `T`. */
  datatype ValueType = Plain(plistType: PlistType) | OptionalPlist

  predicate IsValueOf(v: Option<Plist>, valueType: ValueType)
  {
    match valueType
    case Plain(t) => v.Some? && HasType(v.value, t)
    case OptionalPlist => true
  }

  /** `object(forKey:) as? T`. For a plist `T` only a present entry of type `T`
      casts. For the optional `T` the cast always succeeds: every entry of the
      table is a property-list value, and a missing entry (`nil as? T`) casts
      to `.some(nil)`. */
  function CastTo(obj: Option<Plist>, valueType: ValueType): (r: Option<Option<Plist>>)
    ensures r.Some? <==> IsValueOf(obj, valueType)
    ensures r.Some? ==> r.value == obj
  {
    match valueType
    case Plain(t) => if obj.Some? && HasType(obj.value, t) then Some(obj) else None
    case OptionalPlist => Some(obj)
  }

  /** `wrappedValue` get: `defaultValue` for an unbound key; for a plist `T`
      also for a missing entry or an entry that is not a `T`; otherwise the
      stored value, which for the optional `T` is nil when the entry is missing. */
  function UniversalGet(key: PropertyKey, valueType: ValueType, defaultValue: Option<Plist>, table: Table): (r: Option<Plist>)
    ensures r == defaultValue || (key.Fixed? && Lookup(table, key.name) == r)
    ensures valueType.Plain? && r != defaultValue ==> r.Some?
    ensures IsValueOf(defaultValue, valueType) ==> IsValueOf(r, valueType)
  {
    match key.RawKey()
    case None => defaultValue
    case Some(k) => CastTo(Lookup(table, k), valueType).GetOr(defaultValue)
  }

  /** Reads return `defaultValue` exactly in the fallback cases; the optional
      `T` never falls back once the key is bound. */
  lemma UniversalGetCases(key: PropertyKey, valueType: ValueType, defaultValue: Option<Plist>, table: Table)
    ensures key.NotSetYet? ==> UniversalGet(key, valueType, defaultValue, table) == defaultValue
    ensures key.Fixed? && valueType.Plain? && (key.name !in table || !IsValueOf(Some(table[key.name]), valueType)) ==>
      UniversalGet(key, valueType, defaultValue, table) == defaultValue
    ensures key.Fixed? && key.name in table && IsValueOf(Some(table[key.name]), valueType) ==>
      UniversalGet(key, valueType, defaultValue, table) == Some(table[key.name])
    ensures key.Fixed? && valueType.OptionalPlist? ==>
      UniversalGet(key, valueType, defaultValue, table) == Lookup(table, key.name)
  {
  }

  /** On a bound, writable wrapper, writing a non-nil `T` and reading it back
      gives that value. */
  lemma UniversalWriteThenRead(key: PropertyKey, valueType: ValueType, defaultValue: Option<Plist>,
                               table: Table, v: Option<Plist>)
    requires key.Fixed? && v.Some? && IsValueOf(v, valueType)
    ensures Lookup(Written(false, key, v, table), key.name) == v
    ensures UniversalGet(key, valueType, defaultValue, Written(false, key, v, table)) == v
  {
  }

  /** After `removeStorageValue()` a plist `T` reads its `defaultValue`; with
      a bound key the optional `T` reads nil, its own default. */
  lemma UniversalRemoveThenRead(key: PropertyKey, valueType: ValueType, defaultValue: Option<Plist>, table: Table)
    ensures valueType.Plain? || key.NotSetYet? ==>
      UniversalGet(key, valueType, defaultValue, WithoutStorageValue(key, table)) == defaultValue
    ensures valueType.OptionalPlist? && key.Fixed? ==>
      UniversalGet(key, valueType, defaultValue, WithoutStorageValue(key, table)).None?
  {
  }

  class UniversalUserDefault {
    var key: PropertyKey
    var isReadOnly: bool
    const valueType: ValueType
    const defaultValue: Option<Plist>
    const userDefaults: UserDefaults

    /** `defaultValue` is a `T`, and nil when `T` is the optional type. */
    ghost predicate Valid()
    {
      IsValueOf(defaultValue, valueType) && (valueType.OptionalPlist? ==> defaultValue.None?)
    }

    /** `init(key:userDefaults:)` where `T == Optional<PlistCompatible>`. */
    constructor OfOptional(key: PropertyKey, userDefaults: UserDefaults?, standard: UserDefaults)
      ensures Valid()
      ensures this.key == key && !isReadOnly
      ensures valueType == OptionalPlist && defaultValue == None
      ensures this.userDefaults == if userDefaults != null then userDefaults else standard
    {
      this.key := key;
      this.isReadOnly := false;
      this.valueType := OptionalPlist;
      this.defaultValue := None;
      this.userDefaults := if userDefaults != null then userDefaults else standard;
    }

    /** `init(key:defaultValue:userDefaults:)` where `T: PlistCompatible`. */
    constructor (key: PropertyKey, plistType: PlistType, defaultValue: Plist,
                 userDefaults: UserDefaults?, standard: UserDefaults)
      requires HasType(defaultValue, plistType)
      ensures Valid()
      ensures this.key == key && !isReadOnly
      ensures valueType == Plain(plistType) && this.defaultValue == Some(defaultValue)
      ensures this.userDefaults == if userDefaults != null then userDefaults else standard
    {
      this.key := key;
      this.isReadOnly := false;
      this.valueType := Plain(plistType);
      this.defaultValue := Some(defaultValue);
      this.userDefaults := if userDefaults != null then userDefaults else standard;
    }

    method AssignKey(newValue: PropertyKey)
      modifies this`key
      ensures key == Assign(old(key), newValue)
    {
      if key.RawKey().None? {
        key := newValue;
      }
    }

    /** The getter; a valid wrapper always reads a `T`. */
    function WrappedValue(): (r: Option<Plist>)
      reads this, userDefaults
      ensures Valid() ==> IsValueOf(r, valueType)
    {
      UniversalGet(key, valueType, defaultValue, userDefaults.entries)
    }

    /** `wrappedValue` set of a non-nil `T`. */
    method SetWrappedValue(newValue: Option<Plist>)
      requires newValue.Some? && IsValueOf(newValue, valueType)
      modifies userDefaults
      ensures userDefaults.entries == Written(isReadOnly, key, newValue, old(userDefaults.entries))
      ensures !isReadOnly && key.Fixed? ==> WrappedValue() == newValue
    {
      if !isReadOnly && key.RawKey().Some? {
        userDefaults.Set(newValue, key.RawKey().value);
      }
    }

    method RemoveStorageValue()
      modifies userDefaults
      ensures userDefaults.entries == WithoutStorageValue(key, old(userDefaults.entries))
      ensures valueType.Plain? || key.NotSetYet? ==> WrappedValue() == defaultValue
      ensures valueType.OptionalPlist? && key.Fixed? ==> WrappedValue().None?
      ensures Valid() ==> WrappedValue() == defaultValue
    {
      if key.RawKey().Some? {
        userDefaults.RemoveObject(key.RawKey().value);
      }
    }
  }
}
