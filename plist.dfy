/**
  The property-list value domain: the values a `UserDefaults` table can hold
  (the `PlistCompatible` conformances), the static types a wrapper can be
  declared with, and Swift's conditional cast `as? T` on such values.
 */
module Plists {

  datatype Option<+T> = None | Some(value: T) {
    /** Swift's `??`: the wrapped value, or `fallback` for nil. */
    function GetOr(fallback: T): (r: T)
      ensures Some? ==> r == value
      ensures None? ==> r == fallback
    {
      match this
      case Some(v) => v
      case None => fallback
    }
  }

  /** Swift's 64-bit `Int`. */
  newtype Int64 = x: int | -0x8000_0000_0000_0000 <= x < 0x8000_0000_0000_0000

  /** A property-list value. `Double`, `Float` and `Date` carry no arithmetic here
      and are kept as their IEEE bit patterns; `Data` is a byte string. */
  datatype Plist =
    | PString(s: string)
    | PInt(i: Int64)
    | PDouble(doubleBits: bv64)
    | PFloat(floatBits: bv32)
    | PBool(b: bool)
    | PDate(timeBits: bv64)
    | PData(bytes: seq<bv8>)
    | PArray(items: seq<Plist>)
    | PDictionary(entries: map<string, Plist>)

  /** A `PlistCompatible` static type: the seven scalar types, `Array` whose
      `Element` is plist-compatible and `Dictionary` with `String` keys whose
      `Value` is plist-compatible. */
  datatype PlistType =
    | TString
    | TInt
    | TDouble
    | TFloat
    | TBool
    | TDate
    | TData
    | TArray(element: PlistType)
    | TDictionary(value: PlistType)

  /** Whether `p` is a value of static type `t`: the tag must match exactly, and
      every element of an array or dictionary must be of the element type. */
  function HasType(p: Plist, t: PlistType): bool
  {
    match (p, t)
    case (PString(_), TString) => true
    case (PInt(_), TInt) => true
    case (PDouble(_), TDouble) => true
    case (PFloat(_), TFloat) => true
    case (PBool(_), TBool) => true
    case (PDate(_), TDate) => true
    case (PData(_), TData) => true
    case (PArray(items), TArray(e)) => forall i | 0 <= i < |items| :: HasType(items[i], e)
    case (PDictionary(m), TDictionary(v)) => forall k | k in m :: HasType(m[k], v)
    case _ => false
  }

  /** The conditional cast `object as? T` of an entry read from the table
      (`None` when the table has no entry). */
  function Cast(obj: Option<Plist>, t: PlistType): (r: Option<Plist>)
    ensures r.Some? <==> obj.Some? && HasType(obj.value, t)
    ensures r.Some? ==> r == obj
  {
    match obj
    case Some(p) => if HasType(p, t) then Some(p) else None
    case None => None
  }

  /** A value of a scalar type carries that type's tag and no other. */
  lemma ScalarTypeIsTag(p: Plist, t: PlistType)
    requires !t.TArray? && !t.TDictionary?
    ensures HasType(p, t) <==>
      match t
      case TString => p.PString?
      case TInt => p.PInt?
      case TDouble => p.PDouble?
      case TFloat => p.PFloat?
      case TBool => p.PBool?
      case TDate => p.PDate?
      case TData => p.PData?
  {
  }

  /** The cast is unambiguous: a value without empty arrays or dictionaries in
      it is of at most one plist type (an empty collection is of every element
      type; a mixed array is of none). */
  lemma {:induction false} TypeIsUnique(p: Plist, t: PlistType, u: PlistType)
    requires HasType(p, t) && HasType(p, u)
    requires NoEmptyCollections(p)
    ensures t == u
  {
    match p
    case PArray(items) =>
      TypeIsUnique(items[0], t.element, u.element);
    case PDictionary(m) =>
      var k :| k in m;
      TypeIsUnique(m[k], t.value, u.value);
    case _ =>
  }

  /** No array or dictionary anywhere inside `p` is empty. */
  predicate NoEmptyCollections(p: Plist)
  {
    match p
    case PArray(items) =>
      |items| > 0 && forall i | 0 <= i < |items| :: NoEmptyCollections(items[i])
    case PDictionary(m) =>
      |m| > 0 && forall k | k in m :: NoEmptyCollections(m[k])
    case _ => true
  }

  /** A raw-representable type `T` whose `RawValue` is the plist type `rawType`:
      `toRaw` is `rawValue` (total), `fromRaw` is `init?(rawValue:)` (partial). */
  datatype RawRepresentation<!T(!new)> = RawRepresentation(
    rawType: PlistType,
    toRaw: T -> Plist,
    fromRaw: Plist -> Option<T>)
  {
    /** Swift's static typing: every `rawValue` is of type `T.RawValue`. */
    ghost predicate Conforms()
    {
      forall v :: HasType(toRaw(v), rawType)
    }

    /** `init(rawValue: v.rawValue) == v`, which `RawRepresentable` does not promise. */
    ghost predicate RoundTrips(v: T)
    {
      fromRaw(toRaw(v)) == Some(v)
    }
  }
}
