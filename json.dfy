/**
 * JavaScript values as they reach the core: parsed JSON payloads, token claims
 * and provider responses, together with the few language rules the core relies
 * on (property reads, truthiness, `typeof`).
 */
module Json {
  import opened Wrappers

  datatype Value =
    | Null
    | Bool(b: bool)
    | Number(n: real)
    | Str(s: string)
    | Array(items: seq<Value>)
    | Object(fields: map<string, Value>)

  /** `v[k]` for an own property of a plain object; `None` stands for `undefined`. */
  function Get(v: Value, k: string): (r: Option<Value>)
    ensures r.Some? <==> v.Object? && k in v.fields
    ensures r.Some? ==> r.value == v.fields[k]
  {
    if v.Object? && k in v.fields then Some(v.fields[k]) else None
  }

  /** `v[k]` where `v` is itself possibly `undefined`; only evaluated on a truthy `v` in the source. */
  function GetOpt(v: Option<Value>, k: string): Option<Value>
  {
    if v.Some? then Get(v.value, k) else None
  }

  /** JavaScript truthiness: `undefined`, `null`, `false`, `0` and `""` are falsy. */
  predicate Truthy(v: Option<Value>)
  {
    match v
    case None => false
    case Some(Null) => false
    case Some(Bool(b)) => b
    case Some(Number(n)) => n != 0.0
    case Some(Str(s)) => s != ""
    case Some(Array(_)) => true
    case Some(Object(_)) => true
  }

  /** The JavaScript `typeof` operator. */
  function TypeOf(v: Option<Value>): string
  {
    match v
    case None => "undefined"
    case Some(Null) => "object"
    case Some(Bool(_)) => "boolean"
    case Some(Number(_)) => "number"
    case Some(Str(_)) => "string"
    case Some(Array(_)) => "object"
    case Some(Object(_)) => "object"
  }

  /** The message of the TypeError a property read on `null` throws. */
  function NullReadCause(k: string): string
  {
    "Cannot read properties of null (reading '" + k + "')"
  }

  /** `v.k`, which throws when `v` is `null` and is `undefined` for a missing property. */
  function ReadProp(v: Value, k: string): (r: Result<Option<Value>>)
    ensures r.Err? <==> v.Null?
    ensures r.Ok? ==> r.value == Get(v, k)
  {
    if v.Null? then Err(NullReadCause(k)) else Ok(Get(v, k))
  }
}
