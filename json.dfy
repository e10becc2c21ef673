/** The decoded JSON values exchanged with the language model and the forum API. */
module Json {

  datatype Json =
    | JNull
    | JBool(b: bool)
    | JNumber(n: real)
    | JString(s: string)
    | JArray(items: seq<Json>)
    | JObject(fields: map<string, Json>)

  /** Python truthiness of a decoded JSON value (`not data.get(...)`). */
  predicate Truthy(j: Json) {
    match j
    case JNull => false
    case JBool(b) => b
    case JNumber(n) => n != 0.0
    case JString(s) => s != ""
    case JArray(xs) => xs != []
    case JObject(m) => m != map[]
  }
}

/**
 * How a pydantic model reads one field of a JSON object in `model_validate`.
 * Only JSON-native types are accepted; lax-mode coercions are not modelled.
 * Each reader gives None when the field is present but ill-typed (a validation error).
 */
module JsonFields {
  import opened Wrappers
  import opened Json

  /** A required `str` field. */
  function RequiredString(m: map<string, Json>, key: string): (r: Option<string>)
    ensures r.Some? <==> key in m && m[key].JString?
  {
    if key in m && m[key].JString? then Some(m[key].s) else None
  }

  /** A required `bool` field. */
  function RequiredBool(m: map<string, Json>, key: string): (r: Option<bool>)
    ensures r.Some? <==> key in m && m[key].JBool?
  {
    if key in m && m[key].JBool? then Some(m[key].b) else None
  }

  /** The field is absent, null or a string: what a `str | None` field accepts. */
  predicate NullOrString(m: map<string, Json>, key: string) {
    key !in m || m[key].JNull? || m[key].JString?
  }

  /** A `str | None = None` field: absent and null both read as None. */
  function OptionalString(m: map<string, Json>, key: string): (r: Option<Option<string>>)
    ensures r.Some? <==> key !in m || m[key].JNull? || m[key].JString?
    ensures key !in m ==> r == Some(None)
  {
    if key !in m || m[key].JNull? then Some(None)
    else if m[key].JString? then Some(Some(m[key].s))
    else None
  }

  /** A `float = d` field (null is not a float). */
  function RealOr(m: map<string, Json>, key: string, d: real): (r: Option<real>)
    ensures key !in m ==> r == Some(d)
    ensures r.Some? <==> key !in m || m[key].JNumber?
  {
    if key !in m then Some(d)
    else if m[key].JNumber? then Some(m[key].n)
    else None
  }

  /** A `str = d` field. */
  function StringOr(m: map<string, Json>, key: string, d: string): (r: Option<string>)
    ensures key !in m ==> r == Some(d)
    ensures r.Some? <==> key !in m || m[key].JString?
  {
    if key !in m then Some(d)
    else if m[key].JString? then Some(m[key].s)
    else None
  }

  /** The strings of a JSON array, or None when some item is not a string. */
  function Strings(items: seq<Json>): (r: Option<seq<string>>)
    ensures r.Some? ==> |r.value| == |items|
    ensures r.Some? <==> forall i :: 0 <= i < |items| ==> items[i].JString?
  {
    if items == [] then Some([])
    else if !items[0].JString? then None
    else
      match Strings(items[1..])
      case None => None
      case Some(rest) => Some([items[0].s] + rest)
  }

  /** A `list[str]` field defaulting to the empty list. */
  function StringListOr(m: map<string, Json>, key: string): (r: Option<seq<string>>)
    ensures key !in m ==> r == Some([])
    ensures r.Some? <==> key !in m || (m[key].JArray? && forall i :: 0 <= i < |m[key].items| ==> m[key].items[i].JString?)
  {
    if key !in m then Some([])
    else if m[key].JArray? then Strings(m[key].items)
    else None
  }
}
