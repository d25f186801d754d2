/**
 * The JSON tree the writer builds: a stand-in for the elements of the
 * JSON library (null, string, number, boolean, array, object).  Numbers
 * are integers; objects are finite maps, so key order is not modelled.
 */
module JsonValue {

  datatype Json =
    | JNull
    | JString(str: string)
    | JNum(num: int)
    | JBool(truth: bool)
    | JArray(elems: seq<Json>)
    | JObject(fields: map<string, Json>)
}
