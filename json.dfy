/** A parsed JSON value as `json.load` returns it: objects are maps from
    keys to values, arrays are sequences. Numbers are kept as their source
    text and are only ever copied. */
module Json {

  datatype Json =
    | JNull
    | JBool(b: bool)
    | JNumber(literal: string)
    | JString(str: string)
    | JArray(elems: seq<Json>)
    | JObject(fields: map<string, Json>)

  /** `k in j` for a JSON object `j`. */
  predicate Has(j: Json, k: string)
  {
    j.JObject? && k in j.fields
  }

  /** `j[k]`, which the scripts only evaluate when the key is present. */
  function Get(j: Json, k: string): Json
    requires Has(j, k)
  {
    j.fields[k]
  }

  /** `j[k]` where present, `null` otherwise: the total form used by the
      specification functions. */
  function Member(j: Json, k: string): Json
  {
    if Has(j, k) then j.fields[k] else JNull
  }

  /** The elements iterated by `for x in j` when `j` is an array. */
  function Elems(j: Json): seq<Json>
  {
    if j.JArray? then j.elems else []
  }

  /** The string held by a JSON string. */
  function Str(j: Json): string
  {
    if j.JString? then j.str else ""
  }
}
