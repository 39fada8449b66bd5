/**
  Client code of the wrappers: the `Language` enum of the storage tests, the
  settings of the common tests, and the deferred-key example from the
  `PropertyKey` documentation. Each scenario returns what its reads observe and
  its postcondition states those observations, which follow from the
  wrappers' contracts alone.
 */
module Scenarios {
  import opened Plists
  import opened Store
  import opened PropertyKeys
  import Accessors
  import Legacy

  /** `enum Language: String`. */
  datatype Language = English | Finnish | Swedish

  function LanguageRawValue(language: Language): Plist
  {
    match language
    case English => PString("en")
    case Finnish => PString("fi")
    case Swedish => PString("sv")
  }

  /** `Language(rawValue:)`: only the three codes decode. */
  function LanguageFromRawValue(raw: Plist): (r: Option<Language>)
    ensures r.Some? ==> LanguageRawValue(r.value) == raw
  {
    match raw
    case PString(s) =>
      if s == "en" then Some(English)
      else if s == "fi" then Some(Finnish)
      else if s == "sv" then Some(Swedish)
      else None
    case _ => None
  }

  const LanguageRepresentation: RawRepresentation<Language> :=
    RawRepresentation(TString, LanguageRawValue, LanguageFromRawValue)

  /** `Language` is a `String`-backed enum whose every case survives the raw
      round trip. */
  lemma LanguageIsRawRepresentable()
    ensures LanguageRepresentation.Conforms()
    ensures forall language :: LanguageRepresentation.RoundTrips(language)
  {
  }

  /** A stale raw value (no such language) decodes to nothing. */
  lemma StaleLanguageDoesNotDecode()
    ensures LanguageFromRawValue(PString("de")) == None
    ensures LanguageFromRawValue(PInt(1)) == None
  {
  }

  /** `@WrappedUserDefault(key: "languageKey", defaultValue: .english)`: reads
      the default while the table is empty, `.swedish` with raw value "sv" after
      it is written, and the default again after `removeStorageValue()`. */
  method LanguageWithoutInitialValue()
    returns (initially: Language, storedAfterWrite: Option<Plist>, afterWrite: Language,
             storedAfterRemove: Option<Plist>, afterRemove: Language)
    ensures initially == English
    ensures storedAfterWrite == Some(PString("sv")) && afterWrite == Swedish
    ensures storedAfterRemove == None && afterRemove == English
  {
    LanguageIsRawRepresentable();
    var standard := new UserDefaults(map[]);
    var language := new Accessors.WrappedUserDefault(FromStringLiteral("languageKey"), LanguageRepresentation,
                                                      English, null, standard);
    initially := language.WrappedValue();
    language.SetWrappedValue(Swedish);
    storedAfterWrite := standard.Object("languageKey");
    afterWrite := language.WrappedValue();
    language.RemoveStorageValue();
    storedAfterRemove := standard.Object("languageKey");
    afterRemove := language.WrappedValue();
  }

  /** A stale raw value in the table makes the wrapper read its default. */
  method StaleLanguageReadsDefault() returns (read: Language)
    ensures read == English
  {
    var standard := new UserDefaults(map["languageKey" := PString("de")]);
    var language := new Accessors.WrappedUserDefault(FromStringLiteral("languageKey"), LanguageRepresentation,
                                                      English, null, standard);
    read := language.WrappedValue();
  }

  /** `@UserDefault(key: "some_flag", defaultValue: false) var someFlag: Bool`
      reads its default from an empty table. */
  method SomeFlag() returns (read: Plist)
    ensures read == PBool(false)
  {
    var standard := new UserDefaults(map[]);
    var flag := new Legacy.UserDefault("some_flag", TBool, PBool(false), standard);
    read := flag.WrappedValue();
  }

  /** A flag declared with initial value `true` reads `true`; once its entry is
      removed from the table it reads its default `false`. */
  method FlagWithInitialValue() returns (initially: Plist, afterRemove: Plist)
    ensures initially == PBool(true) && afterRemove == PBool(false)
  {
    var standard := new UserDefaults(map[]);
    var flag := new Legacy.UserDefault.WithInitialValue(PBool(true), "flag_with_initial_value", TBool,
                                                        PBool(false), standard);
    initially := flag.WrappedValue();
    standard.RemoveObject("flag_with_initial_value");
    afterRemove := flag.WrappedValue();
  }

  /** The same flag as the settings class declares it: the initialiser
      `= true` is commented out, so the wrapper is built with
      `init(key:defaultValue:)`, nothing is written, and the first read is
      `false` where the common test expects the initial value `true`. */
  method FlagAsDeclared() returns (initially: Plist)
    ensures initially == PBool(false)
  {
    var standard := new UserDefaults(map[]);
    var flag := new Legacy.UserDefault("flag_with_initial_value", TBool, PBool(false), standard);
    initially := flag.WrappedValue();
  }

  /** `Bool?` with default `true` never reads nil: `true`, then `false` after
      writing `false`, then `true` again after writing nil. */
  method OptionalFlagDefaultTrue() returns (initially: Option<Plist>, afterFalse: Option<Plist>, afterNil: Option<Plist>)
    ensures initially == Some(PBool(true))
    ensures afterFalse == Some(PBool(false))
    ensures afterNil == Some(PBool(true))
  {
    var standard := new UserDefaults(map[]);
    var flag := new Legacy.NullableUserDefault("optional_flag_default_true", TBool, Some(PBool(true)), standard);
    initially := flag.WrappedValue();
    flag.SetWrappedValue(Some(PBool(false)));
    afterFalse := flag.WrappedValue();
    flag.SetWrappedValue(None);
    afterNil := flag.WrappedValue();
  }

  /** `Bool?` with default nil: nil, then `false`, then nil again. */
  method OptionalFlagDefaultNil() returns (initially: Option<Plist>, afterFalse: Option<Plist>, afterNil: Option<Plist>)
    ensures initially == None
    ensures afterFalse == Some(PBool(false))
    ensures afterNil == None
  {
    var standard := new UserDefaults(map[]);
    var flag := new Legacy.NullableUserDefault("optional_flag_default_nil", TBool, None, standard);
    initially := flag.WrappedValue();
    flag.SetWrappedValue(Some(PBool(false)));
    afterFalse := flag.WrappedValue();
    flag.SetWrappedValue(None);
    afterNil := flag.WrappedValue();
  }

  /** `@OptionalUserDefault(key:) var betterOptionalFlag: Bool?`: nil, `true`
      after writing `true`, nil after writing nil. */
  method BetterOptionalFlag() returns (initially: Option<Plist>, afterTrue: Option<Plist>, afterNil: Option<Plist>)
    ensures initially == None
    ensures afterTrue == Some(PBool(true))
    ensures afterNil == None
  {
    var standard := new UserDefaults(map[]);
    var flag := new Legacy.OptionalUserDefault("fixed_optional_flag", TBool, standard);
    initially := flag.WrappedValue();
    flag.SetWrappedValue(Some(PBool(true)));
    afterTrue := flag.WrappedValue();
    flag.SetWrappedValue(None);
    afterNil := flag.WrappedValue();
  }

  /** A property declared with `key: .notSetYet` and bound later from an id:
      before binding a write does nothing and the read is the default; the
      first binding sticks, a second one is ignored, and writes then land under
      the first key only. */
  method DeferredKey(someId: string)
    returns (beforeBinding: Plist, tableBeforeBinding: Table, boundKey: PropertyKey,
             afterWrite: Plist, tableAfterWrite: Table)
    ensures beforeBinding == PBool(false) && tableBeforeBinding == map[]
    ensures boundKey == Fixed("key " + someId)
    ensures afterWrite == PBool(true) && tableAfterWrite == map["key " + someId := PBool(true)]
  {
    var standard := new UserDefaults(map[]);
    var property := new Accessors.UserDefault(NotSetYet, TBool, PBool(false), null, standard);
    property.SetWrappedValue(PBool(true));
    beforeBinding := property.WrappedValue();
    tableBeforeBinding := standard.entries;
    property.AssignKey(Fixed("key " + someId));
    property.AssignKey(Fixed("other"));
    boundKey := property.key;
    property.SetWrappedValue(PBool(true));
    afterWrite := property.WrappedValue();
    tableAfterWrite := standard.entries;
  }

  /** A read-only property ignores writes. */
  method ReadOnlyIgnoresWrites() returns (read: Plist, table: Table)
    ensures read == PString("initial") && table == map["name" := PString("initial")]
  {
    var standard := new UserDefaults(map["name" := PString("initial")]);
    var property := new Accessors.UserDefault(FromStringLiteral("name"), TString, PString(""), null, standard);
    property.isReadOnly := true;
    property.SetWrappedValue(PString("changed"));
    read := property.WrappedValue();
    table := standard.entries;
  }
}
