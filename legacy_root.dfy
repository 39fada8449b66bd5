/**
  The repository-root copy of the first wrapper version (the same two
  wrappers as module `Legacy`, declared a second time). Its classes keep their
  own declarations and are specified by `Legacy`'s read and write functions.
 */
module LegacyRoot {
  import opened Plists
  import opened Store
  import Legacy

  /** `UserDefault<T>` for a non-optional plist type `T` (here `valueType`). */
  class UserDefault {
    const key: string
    const valueType: PlistType
    const defaultValue: Plist
    /** `UserDefaults.standard`. */
    const standard: UserDefaults

    ghost predicate Valid()
    {
      HasType(defaultValue, valueType)
    }

    /** `init(key:defaultValue:)`. */
    constructor (key: string, valueType: PlistType, defaultValue: Plist, standard: UserDefaults)
      requires HasType(defaultValue, valueType)
      ensures Valid()
      ensures this.key == key && this.valueType == valueType && this.defaultValue == defaultValue
      ensures this.standard == standard
    {
      this.key := key;
      this.valueType := valueType;
      this.defaultValue := defaultValue;
      this.standard := standard;
    }

    /** `init(wrappedValue:key:defaultValue:)`: also writes the initial value. */
    constructor WithInitialValue(wrappedValue: Plist, key: string, valueType: PlistType, defaultValue: Plist,
                                 standard: UserDefaults)
      requires HasType(defaultValue, valueType) && HasType(wrappedValue, valueType)
      modifies standard
      ensures Valid()
      ensures this.key == key && this.valueType == valueType && this.defaultValue == defaultValue
      ensures this.standard == standard
      ensures standard.entries == WithObject(old(standard.entries), Some(wrappedValue), key)
      ensures WrappedValue() == wrappedValue
    {
      this.key := key;
      this.valueType := valueType;
      this.defaultValue := defaultValue;
      this.standard := standard;
      new;
      standard.Set(Some(wrappedValue), key);
    }

    /** The getter; a valid wrapper always reads a `T`. */
    function WrappedValue(): (r: Plist)
      reads standard
      ensures Valid() ==> HasType(r, valueType)
    {
      Legacy.Get(valueType, defaultValue, standard.entries, key)
    }

    method SetWrappedValue(newValue: Plist)
      requires HasType(newValue, valueType)
      modifies standard
      ensures standard.entries == WithObject(old(standard.entries), Some(newValue), key)
      ensures WrappedValue() == newValue
    {
      standard.Set(Some(newValue), key);
    }
  }

  /** `UserDefault<T>` with `T == U?` for a plist type `U` (here `valueType`). */
  class NullableUserDefault {
    const key: string
    const valueType: PlistType
    const defaultValue: Option<Plist>
    const standard: UserDefaults

    ghost predicate Valid()
    {
      defaultValue.Some? ==> HasType(defaultValue.value, valueType)
    }

    constructor (key: string, valueType: PlistType, defaultValue: Option<Plist>, standard: UserDefaults)
      requires defaultValue.Some? ==> HasType(defaultValue.value, valueType)
      ensures Valid()
      ensures this.key == key && this.valueType == valueType && this.defaultValue == defaultValue
      ensures this.standard == standard
    {
      this.key := key;
      this.valueType := valueType;
      this.defaultValue := defaultValue;
      this.standard := standard;
    }

    constructor WithInitialValue(wrappedValue: Option<Plist>, key: string, valueType: PlistType,
                                 defaultValue: Option<Plist>, standard: UserDefaults)
      requires defaultValue.Some? ==> HasType(defaultValue.value, valueType)
      requires wrappedValue.Some? ==> HasType(wrappedValue.value, valueType)
      modifies standard
      ensures Valid()
      ensures this.key == key && this.valueType == valueType && this.defaultValue == defaultValue
      ensures this.standard == standard
      ensures standard.entries == Legacy.NullableSet(wrappedValue, old(standard.entries), key)
      ensures WrappedValue() == if wrappedValue.Some? then wrappedValue else defaultValue
    {
      this.key := key;
      this.valueType := valueType;
      this.defaultValue := defaultValue;
      this.standard := standard;
      new;
      SetWrappedValue(wrappedValue);
    }

    /** The getter; a valid wrapper reads nil or a `U`. */
    function WrappedValue(): (r: Option<Plist>)
      reads standard
      ensures Valid() ==> r.Some? ==> HasType(r.value, valueType)
    {
      Legacy.NullableGet(valueType, defaultValue, standard.entries, key)
    }

    method SetWrappedValue(newValue: Option<Plist>)
      requires newValue.Some? ==> HasType(newValue.value, valueType)
      modifies standard
      ensures standard.entries == Legacy.NullableSet(newValue, old(standard.entries), key)
      ensures WrappedValue() == if newValue.Some? then newValue else defaultValue
    {
      match newValue
      case Some(v) => standard.Set(Some(v), key);
      case None => standard.RemoveObject(key);
    }
  }

  /** `OptionalUserDefault<T>` for a plist type `T` (here `valueType`). */
  class OptionalUserDefault {
    const key: string
    const valueType: PlistType
    const standard: UserDefaults

    /** `init(key:)`. */
    constructor (key: string, valueType: PlistType, standard: UserDefaults)
      ensures this.key == key && this.valueType == valueType && this.standard == standard
    {
      this.key := key;
      this.valueType := valueType;
      this.standard := standard;
    }

    /** `init(wrappedValue:key:)`: also writes the initial value. */
    constructor WithInitialValue(wrappedValue: Plist, key: string, valueType: PlistType, standard: UserDefaults)
      requires HasType(wrappedValue, valueType)
      modifies standard
      ensures this.key == key && this.valueType == valueType && this.standard == standard
      ensures standard.entries == WithObject(old(standard.entries), Some(wrappedValue), key)
      ensures WrappedValue() == Some(wrappedValue)
    {
      this.key := key;
      this.valueType := valueType;
      this.standard := standard;
      new;
      standard.Set(Some(wrappedValue), key);
    }

    function WrappedValue(): Option<Plist>
      reads standard
    {
      Cast(standard.Object(key), valueType)
    }

    method SetWrappedValue(newValue: Option<Plist>)
      requires newValue.Some? ==> HasType(newValue.value, valueType)
      modifies standard
      ensures standard.entries == WithObject(old(standard.entries), newValue, key)
      ensures WrappedValue() == newValue
    {
      standard.Set(newValue, key);
    }
  }
}
