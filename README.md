# UserDefaults property wrappers, modelled in Dafny

The Swift library models a set of property wrappers. Each wrapper gives a
stored property typed access to one entry of the string-keyed preferences
table, `UserDefaults`. A wrapper holds four things:

- a key, which may be `.notSetYet` and then be bound once;
- a `defaultValue`, which non-optional wrappers read when the entry is missing
  or of the wrong type;
- an `isReadOnly` flag, which turns writes into no-ops;
- a reference to the table, by default `UserDefaults.standard`.

Here the table is an injected object whose state is a `map<string, Plist>`.
`Plist` is the property-list value domain (`PlistCompatible`). Swift's
conditional cast `as? T` becomes an exact tag match against a `PlistType`.
Raw-representable types (enums with a plist raw value) are given by a total
`toRaw` and a partial `fromRaw`.

Modules, one per source file or component:

- `Plists` (`plist.dfy`): the value domain, types, the cast, raw representations.
- `Store` (`store.dfy`): the table with `object(forKey:)`, `set(_:forKey:)` and `removeObject(forKey:)`.
- `PropertyKeys` (`property_key.dfy`): `PropertyKey`, its string-literal initialiser, `rawKey`, and the write-once key setter.
- `Accessors` (`accessors.dfy`): `UserDefault`, `WrappedUserDefault`, `OptionalUserDefault`, `OptionalWrappedUserDefault` and `removeStorageValue`.
- `Universal` (`universal.dfy`): `UniversalUserDefault` and its two constrained initialisers.
- `Legacy` (`legacy.dfy`): the first version's `UserDefault<T>` and `OptionalUserDefault<T>` in `Source/`.
- `LegacyRoot` (`legacy_root.dfy`): the same pair as declared again at the repository root.
- `Scenarios` (`scenarios.dfy`): the test settings and the `Language` enum as client code, each observation stated as a postcondition.

Getters are pure functions of the key and the table contents. Setters,
`removeStorageValue` and the key setter are methods on wrapper classes. Each
method's postcondition gives the new table, or the new key, as a function of
the old one. Lemmas connect writes to reads: write-then-read, remove-then-read,
null collapse, last write wins, and first binding wins.

Behaviour the model keeps from the library:

- A read through an unbound key returns `defaultValue` (nil for the optional
  wrappers). A write or remove through it does nothing. No error is raised.
- `.fixed("")` is a bound key whose raw key is the empty string. Only the
  string-literal initialiser maps `""` to `.notSetYet`.
- The optional wrappers have no default value. They read nil whenever no
  entry of the right type is present.
- The library files modelled here do not define `resetStorageValue` or
  `initialValue`, so they are not part of this model.

## Model

| member | source | states |
|---|---|---|
| Plists.Option.GetOr | Source/UserDefaultsPropertyWrapper.swift:108 | Swift's `??`: the wrapped value when there is one, otherwise the fallback |
| Plists.Cast | Source/UserDefaultsPropertyWrapper.swift:108 | `as? T` succeeds exactly when an entry exists and is of type `T` (the type test `Plists.HasType`: exact tag, element-wise for collections), and then yields that entry unchanged |
| Plists.ScalarTypeIsTag | Source/UserDefaultsPropertyWrapper.swift:19-25 | a value is of a scalar plist type exactly when it carries that type's tag |
| Plists.TypeIsUnique | Source/UserDefaultsPropertyWrapper.swift:15-27 | a value with no empty collection in it belongs to at most one plist type (a mixed array belongs to none), so the cast to `T` is unambiguous |
| PropertyKeys.PropertyKey.RawKey | Source/UserDefaultsPropertyWrapper.swift:53-58 | `rawKey` is `Some(s)` exactly for `.fixed(s)` and nil for `.notSetYet` |
| PropertyKeys.FromStringLiteral | Source/UserDefaultsPropertyWrapper.swift:60-62 | the empty literal gives `.notSetYet`; any other literal `s` gives a key whose raw key is `s` |
| PropertyKeys.Assign | Source/UserDefaultsPropertyWrapper.swift:96-100 | the key setter takes the new key only while the current key is unbound; a fixed key is kept |
| PropertyKeys.FirstFixed | Source/UserDefaultsPropertyWrapper.swift:50 | reference rule: a fixed current key stays; otherwise a fixed result is an attempt preceded only by unbound ones, i.e. the first fixed attempt; the result is unbound only if the current key and all attempts are |
| PropertyKeys.AssignAllIsFirstFixed | Source/UserDefaultsPropertyWrapper.swift:96-100 | any sequence of key assignments ends with the key the write-once rule picks: the first fixed one |
| PropertyKeys.FixedKeyIsFinal | Source/UserDefaultsPropertyWrapper.swift:85 | once fixed, the key is unchanged by any sequence of later assignments |
| PropertyKeys.FirstBindingWins | Source/UserDefaultsPropertyWrapper.swift:50 | binding an unbound key to `a` and then to `b` leaves `a` |
| Store.Lookup | Source/UserDefaultsPropertyWrapper.swift:108 | `object(forKey:)` is some value exactly when the table has the key, and then it is that entry; `Store.UserDefaults.Object` is this lookup on the table object |
| Store.WithObject | Source/UserDefaultsPropertyWrapper.swift:112 | `set(_:forKey:)` makes the key read back the value passed (nil removes it) and leaves every other key as it was |
| Store.WithoutObject | Source/UserDefaultsPropertyWrapper.swift:316 | `removeObject(forKey:)` removes the key and leaves every other key as it was |
| Store.RemoveIsSetNil | Source/UserDefaultsPropertyWrapper.swift:287 | setting nil and removing the entry give the same table |
| Store.UserDefaults.Set | Source/UserDefaultsPropertyWrapper.swift:112 | the table object's new contents are the old contents with the value set |
| Store.UserDefaults.RemoveObject | Source/UserDefaultsPropertyWrapper.swift:316 | the table object's new contents are the old contents without the key |
| Accessors.UserDefaultGet | Source/UserDefaultsPropertyWrapper.swift:105-109 | the read is either `defaultValue` or exactly the entry under the bound key when it has type `T`; it is always a `T` |
| Accessors.UserDefaultGetCases | Source/UserDefaultsPropertyWrapper.swift:106-109 | the read is the stored value when the key is bound and the entry is a `T`; it is `defaultValue` when the key is unbound, the entry is absent or the entry is mistyped |
| Accessors.WrappedGet | Source/UserDefaultsPropertyWrapper.swift:163-170 | the read is `defaultValue` or a value that `init(rawValue:)` decodes from a raw-typed entry under the bound key |
| Accessors.WrappedGetCases | Source/UserDefaultsPropertyWrapper.swift:164-169 | unbound key, absent entry or wrong raw type read `defaultValue`; otherwise the decoded raw value, or `defaultValue` when decoding fails |
| Accessors.OptionalGet | Source/UserDefaultsPropertyWrapper.swift:221-225 | the read is non-nil exactly when the key is bound and the entry has type `T`, and then it is that entry |
| Accessors.OptionalWrappedGet | Source/UserDefaultsPropertyWrapper.swift:277-284 | a non-nil read is the decoding of a raw-typed entry under the bound key; with such an entry the read is exactly its decoding |
| Accessors.Written | Source/UserDefaultsPropertyWrapper.swift:110-113 | a write changes nothing when read-only or unbound; otherwise the bound key reads back the passed value and no other key changes |
| Accessors.WithoutStorageValue | Source/UserDefaultsPropertyWrapper.swift:314-317 | `removeStorageValue` removes exactly the bound key and changes nothing while the key is unbound |
| Accessors.UserDefaultWriteThenRead | Source/UserDefaultsPropertyWrapper.swift:105-113 | after a permitted write of `v`, the table holds `v` under the key and the read returns `v` |
| Accessors.WrappedWriteThenRead | Source/UserDefaultsPropertyWrapper.swift:163-174 | a permitted write stores `v.rawValue`; if `v` survives the raw round trip, the read returns `v` |
| Accessors.OptionalWriteThenRead | Source/UserDefaultsPropertyWrapper.swift:221-229 | writing `some(v)` reads `v`; writing nil leaves no entry and reads nil |
| Accessors.RawOf | Source/UserDefaultsPropertyWrapper.swift:287 | `newValue?.rawValue` is nil exactly for nil, and otherwise the raw value |
| Accessors.OptionalWrappedWriteThenRead | Source/UserDefaultsPropertyWrapper.swift:277-288 | writing nil leaves no entry and reads nil; writing a round-tripping `v` stores its raw value and reads `v` |
| Accessors.RemoveThenRead | Source/UserDefaultsPropertyWrapper.swift:313-318 | after `removeStorageValue` the non-optional wrappers read `defaultValue` and the optional ones read nil |
| Accessors.UserDefault.constructor | Source/UserDefaultsPropertyWrapper.swift:118-122 | the wrapper starts writable, with the given key and default, on the given table or else `.standard` |
| Accessors.UserDefault.WrappedValue | Source/UserDefaultsPropertyWrapper.swift:105-109 | the getter of a valid wrapper always yields a `T`; the other wrappers' getters are `WrappedGet`, `OptionalGet` and `OptionalWrappedGet` on their fields |
| Accessors.UserDefault.AssignKey | Source/UserDefaultsPropertyWrapper.swift:96-100 | the key becomes the write-once assignment of the new key |
| Accessors.UserDefault.SetWrappedValue | Source/UserDefaultsPropertyWrapper.swift:110-113 | the table becomes `Written(...)` of the old table; a permitted write reads back the new value |
| Accessors.UserDefault.RemoveStorageValue | Source/UserDefaultsPropertyWrapper.swift:314-317 | the table loses the bound key, and the wrapper then reads `defaultValue` |
| Accessors.WrappedUserDefault.constructor | Source/UserDefaultsPropertyWrapper.swift:179-183 | as for `UserDefault`, with a conforming raw representation |
| Accessors.WrappedUserDefault.AssignKey | Source/UserDefaultsPropertyWrapper.swift:154-158 | write-once key assignment |
| Accessors.WrappedUserDefault.SetWrappedValue | Source/UserDefaultsPropertyWrapper.swift:171-174 | the table gets `newValue.rawValue` under the bound key; a round-tripping value reads back |
| Accessors.WrappedUserDefault.RemoveStorageValue | Source/UserDefaultsPropertyWrapper.swift:314-317 | the bound key is removed and the wrapper then reads `defaultValue` |
| Accessors.OptionalUserDefault.constructor | Source/UserDefaultsPropertyWrapper.swift:234-237 | writable, given key, given table or `.standard` |
| Accessors.OptionalUserDefault.AssignKey | Source/UserDefaultsPropertyWrapper.swift:213-217 | write-once key assignment |
| Accessors.OptionalUserDefault.SetWrappedValue | Source/UserDefaultsPropertyWrapper.swift:226-229 | the table gets `newValue` (nil removes); a permitted write reads back `newValue` |
| Accessors.OptionalUserDefault.RemoveStorageValue | Source/UserDefaultsPropertyWrapper.swift:314-317 | the bound key is removed and the wrapper then reads nil |
| Accessors.OptionalWrappedUserDefault.constructor | Source/UserDefaultsPropertyWrapper.swift:293-296 | writable, given key and representation, given table or `.standard` |
| Accessors.OptionalWrappedUserDefault.AssignKey | Source/UserDefaultsPropertyWrapper.swift:269-273 | write-once key assignment |
| Accessors.OptionalWrappedUserDefault.SetWrappedValue | Source/UserDefaultsPropertyWrapper.swift:285-288 | the table gets `newValue?.rawValue`; nil or a round-tripping value reads back as written |
| Accessors.OptionalWrappedUserDefault.RemoveStorageValue | Source/UserDefaultsPropertyWrapper.swift:314-317 | the bound key is removed and the wrapper then reads nil |
| Universal.CastTo | Source/UniversalUserDefaultsPropertyWrapper.swift:31 | for a plist `T`, `as? T` succeeds exactly on an existing entry of type `T`; for `T == Optional<PlistCompatible>` it always succeeds, a missing entry casting to `.some(nil)`; a successful cast yields the entry unchanged |
| Universal.UniversalGet | Source/UniversalUserDefaultsPropertyWrapper.swift:28-32 | the read is `defaultValue` or exactly the lookup under the bound key (non-nil for a plist `T`); it is always a `T` |
| Universal.UniversalGetCases | Source/UniversalUserDefaultsPropertyWrapper.swift:29-31 | an unbound key reads `defaultValue`; for a plist `T` so do an absent or non-`T` entry; a `T` entry reads as itself; on a bound key the optional `T` reads exactly the lookup, nil when absent |
| Universal.UniversalWriteThenRead | Source/UniversalUserDefaultsPropertyWrapper.swift:29-36 | on a bound writable wrapper, writing a non-nil `T` stores it and reads it back |
| Universal.UniversalRemoveThenRead | Source/UserDefaultsPropertyWrapper.swift:313-318 | after `removeStorageValue` a plist `T` reads `defaultValue`, and the optional `T` on a bound key reads nil |
| Universal.UniversalUserDefault.OfOptional | Source/UniversalUserDefaultsPropertyWrapper.swift:42-48 | for `T == Optional<PlistCompatible>` the default is nil; given table or `.standard` |
| Universal.UniversalUserDefault.constructor | Source/UniversalUserDefaultsPropertyWrapper.swift:50-56 | for a plist `T` the default is the given value; given table or `.standard` |
| Universal.UniversalUserDefault.WrappedValue | Source/UniversalUserDefaultsPropertyWrapper.swift:29-31 | the getter of a valid wrapper always yields a `T` |
| Universal.UniversalUserDefault.AssignKey | Source/UniversalUserDefaultsPropertyWrapper.swift:19-23 | write-once key assignment |
| Universal.UniversalUserDefault.SetWrappedValue | Source/UniversalUserDefaultsPropertyWrapper.swift:33-36 | no-op when read-only or unbound, otherwise only the bound key changes; the value reads back |
| Universal.UniversalUserDefault.RemoveStorageValue | Source/UserDefaultsPropertyWrapper.swift:313-318 | the bound key is removed and the wrapper then reads `defaultValue` (nil for the optional `T`) |
| Legacy.Get | Source/UserDefaultPropertyWrapper.swift:34-48 | a non-optional read is the stored entry when it is a `T`, and `defaultValue` when the entry is absent or not a `T`; it is always a `T` |
| Legacy.NullableGet | Source/UserDefaultPropertyWrapper.swift:35-44 | with `T == U?` the read is `some(entry)` when the stored entry is a `U`, and the (possibly nil) default when it is absent or not a `U`; it is nil only when the default is nil |
| Legacy.NullableSet | Source/UserDefaultPropertyWrapper.swift:52-58 | with `T == U?`, writing nil removes the key, writing `some(v)` stores `v`, and no other key changes |
| Legacy.WriteThenRead | Source/UserDefaultPropertyWrapper.swift:35-61 | a non-optional write of `v` reads back `v` |
| Legacy.AbsentReadsDefault | Source/UserDefaultPropertyWrapper.swift:42-47 | a missing entry reads `defaultValue`, for both the non-optional and the `U?` form |
| Legacy.NullableWriteThenRead | Source/UserDefaultPropertyWrapper.swift:38-58 | null collapse: after writing nil the read is `defaultValue`, as for a never-written key; after `some(v)` it is `v` |
| Legacy.NullableLastWriteWins | Source/UserDefaultPropertyWrapper.swift:50-63 | after any non-empty sequence of writes, the read depends only on the last one: its value, or the default if it was nil |
| Legacy.AgreesWithFixedKeyWrappers | Source/UserDefaultPropertyWrapper.swift:33-64 | on a fixed key this version reads, writes and removes exactly as the later `UserDefault` and `OptionalUserDefault` |
| Legacy.UserDefault.constructor | Source/UserDefaultPropertyWrapper.swift:66-69 | the key and default are stored and nothing is written |
| Legacy.UserDefault.WithInitialValue | Source/UserDefaultPropertyWrapper.swift:71-75 | construction writes the initial value into the table, and it reads back |
| Legacy.UserDefault.WrappedValue | Source/UserDefaultPropertyWrapper.swift:34-49 | the getter of a valid wrapper always yields a `T` |
| Legacy.UserDefault.SetWrappedValue | Source/UserDefaultPropertyWrapper.swift:59-62 | only the wrapper's key changes, to the new value, which reads back |
| Legacy.NullableUserDefault.constructor | Source/UserDefaultPropertyWrapper.swift:66-69 | the key and the possibly nil default are stored |
| Legacy.NullableUserDefault.WithInitialValue | Source/UserDefaultPropertyWrapper.swift:71-75 | construction applies the setter to the initial value: stored if non-nil, key removed if nil |
| Legacy.NullableUserDefault.WrappedValue | Source/UserDefaultPropertyWrapper.swift:34-49 | the getter of a valid wrapper yields nil or a `U`; `Legacy.OptionalUserDefault`'s getter is `Cast` of the entry (lines 96-98) |
| Legacy.NullableUserDefault.SetWrappedValue | Source/UserDefaultPropertyWrapper.swift:52-58 | nil removes the key and reads the default; `some(v)` stores `v` and reads `v` |
| Legacy.OptionalUserDefault.constructor | Source/UserDefaultPropertyWrapper.swift:104-106 | the key is stored and nothing is written |
| Legacy.OptionalUserDefault.WithInitialValue | Source/UserDefaultPropertyWrapper.swift:108-111 | construction stores the initial value, which reads back |
| Legacy.OptionalUserDefault.SetWrappedValue | Source/UserDefaultPropertyWrapper.swift:96-101 | the table gets the new value under the key (nil removes), and the read returns it |
| LegacyRoot.UserDefault.constructor | UserDefaultPropertyWrapper.swift:58-61 | the key and default are stored and nothing is written |
| LegacyRoot.UserDefault.WithInitialValue | UserDefaultPropertyWrapper.swift:63-67 | construction writes the initial value, which reads back |
| LegacyRoot.UserDefault.WrappedValue | UserDefaultPropertyWrapper.swift:34-45 | the getter of a valid wrapper always yields a `T` |
| LegacyRoot.UserDefault.SetWrappedValue | UserDefaultPropertyWrapper.swift:34-55 | only the wrapper's key changes, and the read returns the new value |
| LegacyRoot.NullableUserDefault.constructor | UserDefaultPropertyWrapper.swift:58-61 | the key and the possibly nil default are stored and nothing is written |
| LegacyRoot.NullableUserDefault.WithInitialValue | UserDefaultPropertyWrapper.swift:63-66 | construction applies the setter to the initial value |
| LegacyRoot.NullableUserDefault.WrappedValue | UserDefaultPropertyWrapper.swift:34-45 | the getter of a valid wrapper yields nil or a `U`; `LegacyRoot.OptionalUserDefault`'s getter is `Cast` of the entry (lines 88-90) |
| LegacyRoot.NullableUserDefault.SetWrappedValue | UserDefaultPropertyWrapper.swift:40-51 | nil removes the key and reads the default, the same as for a never-written key; `some(v)` reads `v` |
| LegacyRoot.OptionalUserDefault.constructor | UserDefaultPropertyWrapper.swift:96-98 | the key is stored and nothing is written |
| LegacyRoot.OptionalUserDefault.WithInitialValue | UserDefaultPropertyWrapper.swift:100-103 | construction stores the initial value, which reads back |
| LegacyRoot.OptionalUserDefault.SetWrappedValue | UserDefaultPropertyWrapper.swift:86-93 | the new value is stored under the immutable key (nil removes), and the read returns it |
| Scenarios.LanguageFromRawValue | Tests/Common/FixedCode/StorageManipulatingProtocolTests.swift:15-19 | `Language(rawValue:)` decodes a raw value only to the case whose raw value it is |
| Scenarios.LanguageIsRawRepresentable | Tests/Common/FixedCode/StorageManipulatingProtocolTests.swift:15-19 | every `Language` raw value (`Scenarios.LanguageRawValue`: "en", "fi", "sv") is a `String`, and every case survives the raw round trip |
| Scenarios.StaleLanguageDoesNotDecode | Source/UserDefaultsPropertyWrapper.swift:169 | an unknown code or a non-string does not decode to a `Language` |
| Scenarios.LanguageWithoutInitialValue | Tests/Common/FixedCode/StorageManipulatingProtocolTests.swift:125-165 | reads English while empty; after writing Swedish the table holds "sv" and the read is Swedish; after removal there is no entry and the read is English |
| Scenarios.StaleLanguageReadsDefault | Source/UserDefaultsPropertyWrapper.swift:169 | a stored code with no matching case reads the default |
| Scenarios.SomeFlag | Tests/Common/FixedCode/CommonTests.swift:29-34 | a non-optional flag on an empty table reads its default `false` |
| Scenarios.FlagWithInitialValue | Tests/Common/FixedCode/CommonTests.swift:36-44 | with initial value `true` the flag reads `true`, and `false` once the entry is removed |
| Scenarios.FlagAsDeclared | Tests/Common/FixedCode/UserSettings.swift:22-23 | the flag as declared, with no initial value, first reads `false` |
| Scenarios.OptionalFlagDefaultTrue | Tests/Common/FixedCode/CommonTests.swift:46-55 | `Bool?` with default `true` reads `true`, `false` after writing `false`, and `true` after writing nil |
| Scenarios.OptionalFlagDefaultNil | Tests/Common/FixedCode/CommonTests.swift:57-66 | `Bool?` with default nil reads nil, `false` after writing `false`, and nil after writing nil |
| Scenarios.BetterOptionalFlag | Tests/Common/FixedCode/CommonTests.swift:68-75 | `OptionalUserDefault` reads nil, `true` after writing `true`, and nil after writing nil |
| Scenarios.DeferredKey | Source/UserDefaultsPropertyWrapper.swift:36-50 | before binding, a write does nothing and the read is the default; the first binding sticks and a second is ignored; a write then lands under the first key only |
| Scenarios.ReadOnlyIgnoresWrites | Source/UserDefaultsPropertyWrapper.swift:111 | a read-only wrapper's write leaves the table and the read unchanged |

## Findings

| source | as written | input that shows it | evidently intended | confidence | as-written member | corrected member |
|---|---|---|---|---|---|---|
| Tests/Common/FixedCode/UserSettings.swift:22-23 | `flagWithInitialValue` has its `= true` initialiser commented out, so it is built with `init(key:defaultValue:)` and nothing is written | empty table (the test's `setUp` removes the key); the first read is `false`, but CommonTests.swift:41 expects the initial value `true` | the property is declared with `= true`, so `init(wrappedValue:key:defaultValue:)` stores `true` first | high (not executed) | Scenarios.FlagAsDeclared | Scenarios.FlagWithInitialValue |

## Left out

- The real `UserDefaults`: persistence, registered defaults, other processes and the `.standard` singleton are not modelled. The table is an injected `Store.UserDefaults`. `.standard` is an explicit constructor parameter, used when no table is passed.
- `set(nil, forKey:)` removing the entry is `UserDefaults`' documented behaviour. It is not in the library source, and `Store.WithObject` assumes it.
- Foundation bridging in `as?`: `NSNumber` lets `Int`, `Bool`, `Double` and `Float` cast into one another. The model's cast is an exact tag match.
- Numbers, dates and data carry no arithmetic. `Double`, `Float` and `Date` are kept as bit patterns, so two NaNs with the same bits compare equal. `Int` is kept to the 64-bit range.
- The `assert` in every `key` getter is debug-only, and those getters are not modelled. Wrappers read their `key` field directly.
- The wrappers are Swift structs. Here they are classes, so copying a wrapper (and with it its `_key`) is not modelled.
- Universal.UniversalUserDefault.SetWrappedValue: requires a non-nil value. Writing nil through the `Optional<PlistCompatible>` form passes a doubly wrapped nil to `set(_:forKey:)`, and what happens then is not determined by the library code.
- Universal.CastTo: for `T == Optional<PlistCompatible>`, every table entry casts. The table holds only property-list values, and how Swift's run-time conformance check treats a bridged collection is not modelled.
- The older `UserDefault<T>` decides at run time, with `switch value as Any`, whether `T` is optional. Here that is a static choice between `Legacy.UserDefault` and `Legacy.NullableUserDefault`. Double optionals and the `??` flattening in the playground are not modelled.
- `resetStorageValue` and `initialValue` are used by the storage tests, but the library files modelled here do not define them, so they are not part of this model. The tests' `languageWithInitialValue` relies on an `init(wrappedValue:)` of `WrappedUserDefault`, which the library does not have either.
- UserDefaultPropertyWrapper.playground/Contents.swift and the alternative design in Tests/Common/ProposalCode are a demonstration and a separate proposal, and they are not part of this model.
- Several wrappers sharing one key: the source warns against this as a usage rule. The model does not forbid it, and nothing is proved about it.
