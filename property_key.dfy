/**
  `PropertyKey`: the table key of a wrapper, either fixed or not set yet, and
  the write-once rule by which a wrapper's key is bound.
 */
module PropertyKeys {
  import opened Plists

  datatype PropertyKey = Fixed(name: string) | NotSetYet
  {
    /** `rawKey`: the key string of a fixed key, nil otherwise. */
    function RawKey(): (r: Option<string>)
      ensures r.Some? <==> Fixed?
      ensures Fixed? ==> r.value == name
    {
      if Fixed? then Some(name) else None
    }
  }

  /** `init(stringLiteral:)`: an empty literal means "not set yet". */
  function FromStringLiteral(value: string): (k: PropertyKey)
    ensures k.NotSetYet? <==> value == ""
    ensures k.RawKey() == if value == "" then None else Some(value)
  {
    if |value| == 0 then NotSetYet else Fixed(value)
  }

  /** The `key` setter of every wrapper: the new key is taken only while the
      current one has no raw key. */
  function Assign(current: PropertyKey, newValue: PropertyKey): (k: PropertyKey)
    ensures current.Fixed? ==> k == current
    ensures current.NotSetYet? ==> k == newValue
  {
    if current.RawKey().None? then newValue else current
  }

  /** The key after the setter has been called with each of `attempts` in turn. */
  function AssignAll(current: PropertyKey, attempts: seq<PropertyKey>): PropertyKey
    decreases |attempts|
  {
    if |attempts| == 0 then current
    else AssignAll(Assign(current, attempts[0]), attempts[1..])
  }

  /** Reference definition of the write-once rule: a fixed key stays, otherwise
      the first fixed key among the attempts wins. */
  function FirstFixed(current: PropertyKey, attempts: seq<PropertyKey>): (k: PropertyKey)
    ensures current.Fixed? ==> k == current
    ensures current.NotSetYet? && k.Fixed? ==>
      exists i | 0 <= i < |attempts| :: attempts[i] == k && forall j | 0 <= j < i :: attempts[j].NotSetYet?
    ensures k.NotSetYet? ==> current.NotSetYet? && forall i | 0 <= i < |attempts| :: attempts[i].NotSetYet?
    decreases |attempts|
  {
    if current.Fixed? then current
    else if |attempts| == 0 then NotSetYet
    else FirstFixed(attempts[0], attempts[1..])
  }

  /** Any sequence of key assignments leaves the first fixed key in force. */
  lemma {:induction false} AssignAllIsFirstFixed(current: PropertyKey, attempts: seq<PropertyKey>)
    ensures AssignAll(current, attempts) == FirstFixed(current, attempts)
    decreases |attempts|
  {
    if |attempts| > 0 {
      AssignAllIsFirstFixed(Assign(current, attempts[0]), attempts[1..]);
    }
  }

  /** Once a key is fixed, no later assignment changes it. */
  lemma {:induction false} FixedKeyIsFinal(current: PropertyKey, attempts: seq<PropertyKey>)
    requires current.Fixed?
    ensures AssignAll(current, attempts) == current
    decreases |attempts|
  {
    if |attempts| > 0 {
      FixedKeyIsFinal(Assign(current, attempts[0]), attempts[1..]);
    }
  }

  /** Binding a not-yet-set key twice: the first fixed string wins. */
  lemma FirstBindingWins(a: string, b: string)
    ensures AssignAll(NotSetYet, [Fixed(a), Fixed(b)]) == Fixed(a)
  {
    AssignAllIsFirstFixed(NotSetYet, [Fixed(a), Fixed(b)]);
  }
}
