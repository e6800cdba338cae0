/** The JSON values exchanged with the remote API: request bodies built by the
    adapter and response bodies produced by the decoder. Objects are maps, so
    key order on the wire is not modelled (it carries no meaning in JSON). */
module Json {

  datatype Json =
    | JNull
    | JBool(b: bool)
    | JNumber(n: int)
    | JString(s: string)
    | JArray(items: seq<Json>)
    | JObject(fields: map<string, Json>)

  /** Every value of the object is a JSON string. */
  predicate AllStrings(fields: map<string, Json>) {
    forall k :: k in fields ==> fields[k].JString?
  }
}
