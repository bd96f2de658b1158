/** JSON values as the frontend sees them; `Option<Json>` with None stands for `undefined`. */
module Json {
  import opened Wrappers
  import opened Text

  /** An object lists its properties in enumeration order, as Object.entries returns them. */
  datatype Json =
    | JNull
    | JBool(b: bool)
    | JNum(n: real)
    | JStr(s: string)
    | JArr(items: seq<Json>)
    | JObj(members: seq<(string, Json)>)

  /** JavaScript truthiness. */
  predicate IsTruthy(v: Json)
  {
    match v
    case JNull => false
    case JBool(b) => b
    case JNum(n) => n != 0.0
    case JStr(s) => s != ""
    case _ => true
  }

  predicate OptTruthy(v: Option<Json>)
  {
    v.Some? && IsTruthy(v.value)
  }

  /** What `??` treats as missing: undefined and null. */
  predicate Nullish(v: Option<Json>)
  {
    v.None? || v.value.JNull?
  }

  /**
   * Whether the template-literal string form of `v` trims to the empty string: a string by
   * its characters; an array by its join with commas, where null elements print as nothing;
   * everything else prints as text with a non-blank character.
   */
  predicate FormIsBlank(v: Json)
  {
    match v
    case JStr(s) => Blank(s)
    case JArr(items) => |items| == 0 || (|items| == 1 && (items[0].JNull? || FormIsBlank(items[0])))
    case _ => false
  }

  /** Property access on an object: the value stored under `key`. */
  function Lookup<V>(members: seq<(string, V)>, key: string): (r: Option<V>)
    ensures r.Some? ==> (key, r.value) in members
    ensures r.None? <==> forall i :: 0 <= i < |members| ==> members[i].0 != key
  {
    if |members| == 0 then None
    else if members[0].0 == key then Some(members[0].1)
    else Lookup(members[1..], key)
  }
}
